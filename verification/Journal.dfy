// The session recorder and its journal: recording events into a session, and the
// events that rebuild one.
module Journal {
  import opened Results

  // Captured messages, frames, chunks and answers are only copied; any values do.
  type Payload = string

  datatype Keyed<T> = Keyed(id: nat, item: T)

  datatype Exchange = Exchange(request: Payload, response: Payload)
  datatype WebSocket = WebSocket(handshake: Exchange, frames: seq<Payload>, closed: bool)
  datatype TcpStream = TcpStream(target: Payload, openedAt: int, chunks: seq<Payload>, closed: bool)
  datatype DnsExchange = DnsExchange(name: Payload, queryType: nat, time: int,
                                     answers: seq<Payload>, overridden: bool, completed: bool)

  datatype Session = Session(createdAt: int, flows: seq<Keyed<Exchange>>, websockets: seq<Keyed<WebSocket>>,
                             tcpStreams: seq<Keyed<TcpStream>>, dnsExchanges: seq<Keyed<DnsExchange>>,
                             udpExchanges: seq<Keyed<Payload>>)

  datatype Event =
    | RequestComplete(id: nat, exchange: Exchange)
    | RequestIntercepted(id: nat, request: Payload)
    | ErrorEvent(message: Payload)
    | WebSocketConnected(id: nat, exchange: Exchange)
    | WebSocketFrame(id: nat, frame: Payload)
    | WebSocketClosed(id: nat)
    | TcpConnected(id: nat, target: Payload, openedAt: int)
    | TcpData(id: nat, chunk: Payload)
    | TcpClosed(id: nat)
    | DnsQuery(id: nat, name: Payload, queryType: nat, time: int)
    | DnsResponse(id: nat, answers: seq<Payload>, overridden: bool)
    | UdpExchange(id: nat, exchange_: Payload)

  const MAX_CHUNKS_PER_STREAM: nat := 10_000

  // ----- lists with identifiers ----------------------------------------------

  // The first record with an identifier.
  function Find<T>(list: seq<Keyed<T>>, id: nat): (r: Option<nat>)
    ensures r.Some? ==> r.value < |list|
  {
    if list == [] then None
    else if list[0].id == id then Some(0)
    else
      match Find(list[1..], id)
      case None => None
      case Some(i) => Some(i + 1)
  }

  predicate NoneBefore<T>(list: seq<Keyed<T>>, id: nat, n: nat)
    requires n <= |list|
  {
    forall j :: 0 <= j < n ==> list[j].id != id
  }

  lemma {:induction false} FindMeaning<T>(list: seq<Keyed<T>>, id: nat)
    ensures match Find(list, id)
            case Some(i) => list[i].id == id && NoneBefore(list, id, i)
            case None => NoneBefore(list, id, |list|)
  {
    if list != [] && list[0].id != id {
      FindMeaning(list[1..], id);
      assert list == [list[0]] + list[1..];
    }
  }

  function Upsert<T>(list: seq<Keyed<T>>, id: nat, item: T): seq<Keyed<T>> {
    match Find(list, id)
    case Some(i) => list[i := Keyed(id, item)]
    case None => list + [Keyed(id, item)]
  }

  // The first record's item, and another in its place.
  function Held<T>(list: seq<Keyed<T>>, id: nat): Option<T> {
    match Find(list, id)
    case Some(i) => Some(list[i].item)
    case None => None
  }

  function Put<T>(list: seq<Keyed<T>>, id: nat, item: T): seq<Keyed<T>> {
    match Find(list, id)
    case Some(i) => list[i := Keyed(id, item)]
    case None => list
  }

  function AddFrame(w: WebSocket, frame: Payload): WebSocket {
    w.(frames := w.frames + [frame])
  }

  function AddChunk(t: TcpStream, chunk: Payload): TcpStream {
    if |t.chunks| < MAX_CHUNKS_PER_STREAM then t.(chunks := t.chunks + [chunk]) else t
  }

  // ----- recording -----------------------------------------------------------

  function Record(s: Session, e: Event): Session {
    match e
    case RequestComplete(id, exchange) => s.(flows := Upsert(s.flows, id, exchange))
    case RequestIntercepted(_, _) => s
    case ErrorEvent(_) => s
    case WebSocketConnected(id, exchange) => s.(websockets := Upsert(s.websockets, id, WebSocket(exchange, [], false)))
    case WebSocketFrame(id, frame) =>
      (match Held(s.websockets, id)
       case None => s
       case Some(w) => s.(websockets := Put(s.websockets, id, AddFrame(w, frame))))
    case WebSocketClosed(id) =>
      (match Held(s.websockets, id)
       case None => s
       case Some(w) => s.(websockets := Put(s.websockets, id, w.(closed := true))))
    case TcpConnected(id, target, openedAt) =>
      s.(tcpStreams := s.tcpStreams + [Keyed(id, TcpStream(target, openedAt, [], false))])
    case TcpData(id, chunk) =>
      (match Held(s.tcpStreams, id)
       case None => s
       case Some(t) => s.(tcpStreams := Put(s.tcpStreams, id, AddChunk(t, chunk))))
    case TcpClosed(id) =>
      (match Held(s.tcpStreams, id)
       case None => s
       case Some(t) => s.(tcpStreams := Put(s.tcpStreams, id, t.(closed := true))))
    case DnsQuery(id, name, queryType, time) =>
      s.(dnsExchanges := s.dnsExchanges + [Keyed(id, DnsExchange(name, queryType, time, [], false, false))])
    case DnsResponse(id, answers, overridden) =>
      (match Held(s.dnsExchanges, id)
       case None => s
       case Some(d) =>
         s.(dnsExchanges := Put(s.dnsExchanges, id, d.(answers := answers, overridden := overridden, completed := true))))
    case UdpExchange(id, exchange) => s.(udpExchanges := Upsert(s.udpExchanges, id, exchange))
  }

  function RecordAll(s: Session, events: seq<Event>): Session
    decreases |events|
  {
    if events == [] then s else RecordAll(Record(s, events[0]), events[1..])
  }

  function NewSession(createdAt: int): Session {
    Session(createdAt, [], [], [], [], [])
  }

  function Cleared(s: Session): Session {
    NewSession(s.createdAt)
  }

  // ----- the journal of a session --------------------------------------------

  function FlowEvents(flows: seq<Keyed<Exchange>>): seq<Event> {
    if flows == [] then [] else [RequestComplete(flows[0].id, flows[0].item)] + FlowEvents(flows[1..])
  }

  function FrameEvents(id: nat, frames: seq<Payload>): seq<Event> {
    if frames == [] then [] else [WebSocketFrame(id, frames[0])] + FrameEvents(id, frames[1..])
  }

  function ConnectionEvents(w: Keyed<WebSocket>): seq<Event> {
    [WebSocketConnected(w.id, w.item.handshake)]
    + (FrameEvents(w.id, w.item.frames) + (if w.item.closed then [WebSocketClosed(w.id)] else []))
  }

  function WebSocketEvents(list: seq<Keyed<WebSocket>>): seq<Event> {
    if list == [] then [] else ConnectionEvents(list[0]) + WebSocketEvents(list[1..])
  }

  function ChunkEvents(id: nat, chunks: seq<Payload>): seq<Event> {
    if chunks == [] then [] else [TcpData(id, chunks[0])] + ChunkEvents(id, chunks[1..])
  }

  function StreamEvents(t: Keyed<TcpStream>): seq<Event> {
    [TcpConnected(t.id, t.item.target, t.item.openedAt)]
    + (ChunkEvents(t.id, t.item.chunks) + (if t.item.closed then [TcpClosed(t.id)] else []))
  }

  function TcpEvents(list: seq<Keyed<TcpStream>>): seq<Event> {
    if list == [] then [] else StreamEvents(list[0]) + TcpEvents(list[1..])
  }

  function QueryEvents(d: Keyed<DnsExchange>): seq<Event> {
    [DnsQuery(d.id, d.item.name, d.item.queryType, d.item.time)]
    + (if d.item.completed then [DnsResponse(d.id, d.item.answers, d.item.overridden)] else [])
  }

  function DnsEvents(list: seq<Keyed<DnsExchange>>): seq<Event> {
    if list == [] then [] else QueryEvents(list[0]) + DnsEvents(list[1..])
  }

  function UdpEvents(list: seq<Keyed<Payload>>): seq<Event> {
    if list == [] then [] else [UdpExchange(list[0].id, list[0].item)] + UdpEvents(list[1..])
  }

  function SessionEvents(s: Session): seq<Event> {
    FlowEvents(s.flows) + (WebSocketEvents(s.websockets) + (TcpEvents(s.tcpStreams)
      + (DnsEvents(s.dnsExchanges) + UdpEvents(s.udpExchanges))))
  }

  function Replay(s: Session): Session {
    RecordAll(NewSession(s.createdAt), SessionEvents(s))
  }

  // ----- sessions that replay to themselves ----------------------------------

  predicate Unique<T>(list: seq<Keyed<T>>) {
    forall i, j :: 0 <= i < j < |list| ==> list[i].id != list[j].id
  }

  // An earlier record has the same identifier, so that nothing is added to this one.
  predicate Shadowed<T>(list: seq<Keyed<T>>, k: nat)
    requires k < |list|
  {
    exists j :: 0 <= j < k && list[j].id == list[k].id
  }

  predicate StreamsOk(list: seq<Keyed<TcpStream>>) {
    forall k :: 0 <= k < |list| ==>
      |list[k].item.chunks| <= MAX_CHUNKS_PER_STREAM
      && (Shadowed(list, k) ==> list[k].item.chunks == [] && !list[k].item.closed)
  }

  predicate ExchangesOk(list: seq<Keyed<DnsExchange>>) {
    forall k :: 0 <= k < |list| ==>
      (!list[k].item.completed ==> list[k].item.answers == [] && !list[k].item.overridden)
      && (Shadowed(list, k) ==> !list[k].item.completed)
  }

  predicate Canonical(s: Session) {
    Unique(s.flows) && Unique(s.websockets) && StreamsOk(s.tcpStreams) && ExchangesOk(s.dnsExchanges) && Unique(s.udpExchanges)
  }

  lemma UpsertUnique<T>(list: seq<Keyed<T>>, id: nat, item: T)
    requires Unique(list)
    ensures Unique(Upsert(list, id, item))
  {
    hide Find;
    FindMeaning(list, id);
  }

  lemma PutShape<T>(list: seq<Keyed<T>>, id: nat, item: T)
    ensures |Put(list, id, item)| == |list|
    ensures forall k :: 0 <= k < |list| ==>
      Put(list, id, item)[k] == if list[k].id == id && !Shadowed(list, k) then Keyed(id, item) else list[k]
    ensures forall k :: 0 <= k < |list| ==> Put(list, id, item)[k].id == list[k].id
    ensures Held(list, id).Some? ==>
      exists k :: 0 <= k < |list| && list[k].id == id && !Shadowed(list, k) && list[k].item == Held(list, id).value
  {
    hide Find;
    FindMeaning(list, id);
    var i := Find(list, id);
    forall k | 0 <= k < |list|
      ensures list[k].id == id && !Shadowed(list, k) <==> i == Some(k)
    {
      assert i.Some? ==> list[i.value].id == id;
    }
  }

  lemma ShadowedSame<T>(a: seq<Keyed<T>>, b: seq<Keyed<T>>, k: nat)
    requires |a| == |b| && k < |a| && forall j :: 0 <= j < |a| ==> a[j].id == b[j].id
    ensures Shadowed(a, k) <==> Shadowed(b, k)
  {
    if Shadowed(a, k) {
      var j :| 0 <= j < k && a[j].id == a[k].id;
      assert b[j].id == b[k].id;
    }
    if Shadowed(b, k) {
      var j :| 0 <= j < k && b[j].id == b[k].id;
      assert a[j].id == a[k].id;
    }
  }

  lemma ShadowedPush<T>(list: seq<Keyed<T>>, x: Keyed<T>, k: nat)
    requires k < |list|
    ensures Shadowed(list + [x], k) <==> Shadowed(list, k)
  {
    if Shadowed(list + [x], k) {
      var j :| 0 <= j < k && (list + [x])[j].id == (list + [x])[k].id;
      assert list[j].id == list[k].id;
    }
    if Shadowed(list, k) {
      var j :| 0 <= j < k && list[j].id == list[k].id;
      assert (list + [x])[j].id == (list + [x])[k].id;
    }
  }

  lemma PutUnique<T>(list: seq<Keyed<T>>, id: nat, item: T)
    requires Unique(list)
    ensures Unique(Put(list, id, item))
  {
    hide Shadowed, Put, Held;
    PutShape(list, id, item);
  }

  lemma PutStreams(list: seq<Keyed<TcpStream>>, id: nat, t: TcpStream)
    requires StreamsOk(list) && |t.chunks| <= MAX_CHUNKS_PER_STREAM
    ensures StreamsOk(Put(list, id, t))
  {
    hide Put, Shadowed, Held;
    PutShape(list, id, t);
    var next := Put(list, id, t);
    forall k | 0 <= k < |next|
      ensures |next[k].item.chunks| <= MAX_CHUNKS_PER_STREAM
      ensures Shadowed(next, k) ==> next[k].item.chunks == [] && !next[k].item.closed
    {
      ShadowedSame(list, next, k);
    }
  }

  // A held stream keeps within its limit.
  lemma HeldStream(list: seq<Keyed<TcpStream>>, id: nat)
    requires StreamsOk(list) && Held(list, id).Some?
    ensures |Held(list, id).value.chunks| <= MAX_CHUNKS_PER_STREAM
  {
    hide Put, Shadowed, Held;
    PutShape(list, id, Held(list, id).value);
  }

  lemma PutExchanges(list: seq<Keyed<DnsExchange>>, id: nat, d: DnsExchange)
    requires ExchangesOk(list) && d.completed
    ensures ExchangesOk(Put(list, id, d))
  {
    hide Put, Shadowed, Held;
    PutShape(list, id, d);
    var next := Put(list, id, d);
    forall k | 0 <= k < |next|
      ensures !next[k].item.completed ==> next[k].item.answers == [] && !next[k].item.overridden
      ensures Shadowed(next, k) ==> !next[k].item.completed
    {
      ShadowedSame(list, next, k);
    }
  }

  lemma PushStream(list: seq<Keyed<TcpStream>>, x: Keyed<TcpStream>)
    requires StreamsOk(list) && x.item.chunks == [] && !x.item.closed
    ensures StreamsOk(list + [x])
  {
    hide Shadowed;
    forall k | 0 <= k < |list| ensures Shadowed(list + [x], k) <==> Shadowed(list, k) {
      ShadowedPush(list, x, k);
    }
  }

  lemma PushExchange(list: seq<Keyed<DnsExchange>>, x: Keyed<DnsExchange>)
    requires ExchangesOk(list) && x.item.answers == [] && !x.item.overridden && !x.item.completed
    ensures ExchangesOk(list + [x])
  {
    hide Shadowed;
    forall k | 0 <= k < |list| ensures Shadowed(list + [x], k) <==> Shadowed(list, k) {
      ShadowedPush(list, x, k);
    }
  }

  lemma RecordCanonical(s: Session, e: Event)
    requires Canonical(s)
    ensures Canonical(Record(s, e))
  {
    hide Unique, StreamsOk, ExchangesOk, Upsert, Put, Held;
    match e
    case RequestComplete(id, exchange) => UpsertUnique(s.flows, id, exchange);
    case WebSocketConnected(id, exchange) => UpsertUnique(s.websockets, id, WebSocket(exchange, [], false));
    case WebSocketFrame(id, frame) =>
      if Held(s.websockets, id).Some? {
        PutUnique(s.websockets, id, AddFrame(Held(s.websockets, id).value, frame));
      }
    case WebSocketClosed(id) =>
      if Held(s.websockets, id).Some? {
        PutUnique(s.websockets, id, Held(s.websockets, id).value.(closed := true));
      }
    case TcpConnected(id, target, openedAt) => PushStream(s.tcpStreams, Keyed(id, TcpStream(target, openedAt, [], false)));
    case TcpData(id, chunk) =>
      if Held(s.tcpStreams, id).Some? {
        HeldStream(s.tcpStreams, id);
        PutStreams(s.tcpStreams, id, AddChunk(Held(s.tcpStreams, id).value, chunk));
      }
    case TcpClosed(id) =>
      if Held(s.tcpStreams, id).Some? {
        HeldStream(s.tcpStreams, id);
        PutStreams(s.tcpStreams, id, Held(s.tcpStreams, id).value.(closed := true));
      }
    case DnsQuery(id, name, queryType, time) =>
      PushExchange(s.dnsExchanges, Keyed(id, DnsExchange(name, queryType, time, [], false, false)));
    case DnsResponse(id, answers, overridden) =>
      if Held(s.dnsExchanges, id).Some? {
        var d := Held(s.dnsExchanges, id).value;
        PutExchanges(s.dnsExchanges, id, d.(answers := answers, overridden := overridden, completed := true));
      }
    case UdpExchange(id, exchange) => UpsertUnique(s.udpExchanges, id, exchange);
    case _ =>
  }

  lemma {:induction false} RecordAllCanonical(s: Session, events: seq<Event>)
    requires Canonical(s)
    ensures Canonical(RecordAll(s, events))
    decreases |events|
  {
    hide Canonical, Record;
    if events != [] {
      RecordCanonical(s, events[0]);
      RecordAllCanonical(Record(s, events[0]), events[1..]);
    }
  }

  // ----- replaying each section ----------------------------------------------

  lemma {:induction false} RecordAllAppend(s: Session, a: seq<Event>, b: seq<Event>)
    ensures RecordAll(s, a + b) == RecordAll(RecordAll(s, a), b)
    decreases |a|
  {
    hide Record;
    if a == [] {
      assert a + b == b;
    } else {
      assert (a + b)[1..] == a[1..] + b;
      RecordAllAppend(Record(s, a[0]), a[1..], b);
    }
  }

  lemma RecordOne(s: Session, e: Event)
    ensures RecordAll(s, [e]) == Record(s, e)
  {
    hide Record;
    assert RecordAll(Record(s, e), [e][1..]) == Record(s, e);
  }

  lemma {:induction false} FindNone<T>(list: seq<Keyed<T>>, id: nat)
    requires NoneBefore(list, id, |list|)
    ensures Find(list, id) == None
  {
    if list != [] {
      FindNone(list[1..], id);
    }
  }

  lemma PushNew<T>(before: seq<Keyed<T>>, rest: seq<Keyed<T>>)
    requires rest != [] && Unique(before + rest)
    ensures Find(before, rest[0].id).None?
    ensures (before + [rest[0]]) + rest[1..] == before + rest
  {
    hide Find;
    Regrouped(before, rest);
    var list := before + rest;
    forall j | 0 <= j < |before| ensures before[j].id != rest[0].id {
      assert before[j] == list[j] && rest[0] == list[|before|];
    }
    FindNone(before, rest[0].id);
  }

  lemma {:induction false} ReplayFlows(s: Session, list: seq<Keyed<Exchange>>)
    requires Unique(s.flows + list)
    ensures RecordAll(s, FlowEvents(list)) == s.(flows := s.flows + list)
    decreases |list|
  {
    hide Unique;
    if list == [] {
      assert s.flows + list == s.flows;
    } else {
      PushNew(s.flows, list);
      var next := s.(flows := s.flows + [list[0]]);
      assert FlowEvents(list)[1..] == FlowEvents(list[1..]);
      assert Record(s, FlowEvents(list)[0]) == next;
      ReplayFlows(next, list[1..]);
    }
  }

  lemma {:induction false} ReplayUdp(s: Session, list: seq<Keyed<Payload>>)
    requires Unique(s.udpExchanges + list)
    ensures RecordAll(s, UdpEvents(list)) == s.(udpExchanges := s.udpExchanges + list)
    decreases |list|
  {
    hide Unique;
    if list == [] {
      assert s.udpExchanges + list == s.udpExchanges;
    } else {
      PushNew(s.udpExchanges, list);
      var next := s.(udpExchanges := s.udpExchanges + [list[0]]);
      assert UdpEvents(list)[1..] == UdpEvents(list[1..]);
      assert Record(s, UdpEvents(list)[0]) == next;
      ReplayUdp(next, list[1..]);
    }
  }

  // The last record of a list is the first with its identifier.
  lemma {:induction false} LastIsFirst<T>(before: seq<Keyed<T>>, x: Keyed<T>)
    requires Find(before, x.id).None?
    ensures Find(before + [x], x.id) == Some(|before|)
  {
    var list := before + [x];
    if before != [] {
      assert list[1..] == before[1..] + [x];
      LastIsFirst(before[1..], x);
    }
  }

  // The last record is the one a change goes to, when it is the first with its
  // identifier.
  lemma LastPut<T>(before: seq<Keyed<T>>, id: nat, item: T, next: T)
    requires Find(before, id).None?
    ensures Held(before + [Keyed(id, item)], id) == Some(item)
    ensures Put(before + [Keyed(id, item)], id, next) == before + [Keyed(id, next)]
  {
    hide Find;
    LastIsFirst(before, Keyed(id, item));
  }

  lemma OneFrame(s: Session, before: seq<Keyed<WebSocket>>, id: nat, w: WebSocket, frame: Payload)
    requires s.websockets == before + [Keyed(id, w)] && Find(before, id).None?
    ensures Record(s, WebSocketFrame(id, frame)) == s.(websockets := before + [Keyed(id, w.(frames := w.frames + [frame]))])
  {
    hide Find, Held, Put;
    LastPut(before, id, w, AddFrame(w, frame));
  }

  lemma {:induction false} ReplayFrames(s: Session, before: seq<Keyed<WebSocket>>, id: nat, w: WebSocket, frames: seq<Payload>)
    requires s.websockets == before + [Keyed(id, w)] && Find(before, id).None?
    ensures RecordAll(s, FrameEvents(id, frames))
         == s.(websockets := before + [Keyed(id, w.(frames := w.frames + frames))])
    decreases |frames|
  {
    hide Find, Record;
    if frames == [] {
      assert w.frames + frames == w.frames;
    } else {
      OneFrame(s, before, id, w, frames[0]);
      var w1 := w.(frames := w.frames + [frames[0]]);
      var next := s.(websockets := before + [Keyed(id, w1)]);
      assert FrameEvents(id, frames)[1..] == FrameEvents(id, frames[1..]);
      assert RecordAll(s, FrameEvents(id, frames)) == RecordAll(next, FrameEvents(id, frames[1..]));
      ReplayFrames(next, before, id, w1, frames[1..]);
      assert w1.frames + frames[1..] == w.frames + frames;
    }
  }

  lemma ReplayConnection(s: Session, x: Keyed<WebSocket>)
    requires Find(s.websockets, x.id).None?
    ensures RecordAll(s, ConnectionEvents(x)) == s.(websockets := s.websockets + [x])
  {
    hide Find, FrameEvents, RecordAll, Put, Held;
    var before := s.websockets;
    var w0 := WebSocket(x.item.handshake, [], false);
    var s1 := s.(websockets := before + [Keyed(x.id, w0)]);
    var w1 := w0.(frames := x.item.frames);
    var s2 := s.(websockets := before + [Keyed(x.id, w1)]);
    var tail := if x.item.closed then [WebSocketClosed(x.id)] else [];
    RecordAllAppend(s, [WebSocketConnected(x.id, x.item.handshake)], FrameEvents(x.id, x.item.frames) + tail);
    RecordOne(s, WebSocketConnected(x.id, x.item.handshake));
    RecordAllAppend(s1, FrameEvents(x.id, x.item.frames), tail);
    ReplayFrames(s1, before, x.id, w0, x.item.frames);
    assert w0.frames + x.item.frames == x.item.frames;
    if x.item.closed {
      LastPut(before, x.id, w1, x.item);
      RecordOne(s2, WebSocketClosed(x.id));
    } else {
      RecordNothing(s2);
    }
  }

  lemma RecordNothing(s: Session)
    ensures RecordAll(s, []) == s
  {
  }

  lemma {:induction false} ReplayWebSockets(s: Session, list: seq<Keyed<WebSocket>>)
    requires Unique(s.websockets + list)
    ensures RecordAll(s, WebSocketEvents(list)) == s.(websockets := s.websockets + list)
    decreases |list|
  {
    hide Unique, ConnectionEvents, Find, Record;
    if list == [] {
      assert s.websockets + list == s.websockets;
    } else {
      PushNew(s.websockets, list);
      RecordAllAppend(s, ConnectionEvents(list[0]), WebSocketEvents(list[1..]));
      ReplayConnection(s, list[0]);
      ReplayWebSockets(s.(websockets := s.websockets + [list[0]]), list[1..]);
    }
  }

  lemma OneChunk(s: Session, before: seq<Keyed<TcpStream>>, id: nat, t: TcpStream, chunk: Payload)
    requires s.tcpStreams == before + [Keyed(id, t)] && Find(before, id).None? && |t.chunks| < MAX_CHUNKS_PER_STREAM
    ensures Record(s, TcpData(id, chunk)) == s.(tcpStreams := before + [Keyed(id, t.(chunks := t.chunks + [chunk]))])
  {
    hide Find, Held, Put;
    LastPut(before, id, t, AddChunk(t, chunk));
  }

  lemma {:induction false} ReplayChunks(s: Session, before: seq<Keyed<TcpStream>>, id: nat, t: TcpStream, chunks: seq<Payload>)
    requires s.tcpStreams == before + [Keyed(id, t)] && Find(before, id).None?
    requires |t.chunks| + |chunks| <= MAX_CHUNKS_PER_STREAM
    ensures RecordAll(s, ChunkEvents(id, chunks))
         == s.(tcpStreams := before + [Keyed(id, t.(chunks := t.chunks + chunks))])
    decreases |chunks|
  {
    hide Find, Record;
    if chunks == [] {
      assert t.chunks + chunks == t.chunks;
    } else {
      OneChunk(s, before, id, t, chunks[0]);
      var t1 := t.(chunks := t.chunks + [chunks[0]]);
      var next := s.(tcpStreams := before + [Keyed(id, t1)]);
      assert ChunkEvents(id, chunks)[1..] == ChunkEvents(id, chunks[1..]);
      assert RecordAll(s, ChunkEvents(id, chunks)) == RecordAll(next, ChunkEvents(id, chunks[1..]));
      ReplayChunks(next, before, id, t1, chunks[1..]);
      assert t1.chunks + chunks[1..] == t.chunks + chunks;
    }
  }

  // A stream is rebuilt at its place: one whose identifier is new with all it had, a
  // shadowed one with the nothing it had.
  lemma ReplayStream(s: Session, x: Keyed<TcpStream>)
    requires |x.item.chunks| <= MAX_CHUNKS_PER_STREAM
    requires Find(s.tcpStreams, x.id).None? || (x.item.chunks == [] && !x.item.closed)
    ensures RecordAll(s, StreamEvents(x)) == s.(tcpStreams := s.tcpStreams + [x])
  {
    hide Find, ChunkEvents, RecordAll, Put, Held;
    var before := s.tcpStreams;
    var t0 := TcpStream(x.item.target, x.item.openedAt, [], false);
    var s1 := s.(tcpStreams := before + [Keyed(x.id, t0)]);
    var tail := if x.item.closed then [TcpClosed(x.id)] else [];
    RecordAllAppend(s, [TcpConnected(x.id, x.item.target, x.item.openedAt)], ChunkEvents(x.id, x.item.chunks) + tail);
    RecordOne(s, TcpConnected(x.id, x.item.target, x.item.openedAt));
    if x.item.chunks == [] && !x.item.closed {
      NoChunks(x.id);
      assert ChunkEvents(x.id, x.item.chunks) + tail == [];
      RecordNothing(s1);
    } else {
      var t1 := t0.(chunks := x.item.chunks);
      var s2 := s.(tcpStreams := before + [Keyed(x.id, t1)]);
      RecordAllAppend(s1, ChunkEvents(x.id, x.item.chunks), tail);
      ReplayChunks(s1, before, x.id, t0, x.item.chunks);
      assert t0.chunks + x.item.chunks == x.item.chunks;
      if x.item.closed {
        LastPut(before, x.id, t1, x.item);
        RecordOne(s2, TcpClosed(x.id));
      } else {
        RecordNothing(s2);
      }
    }
  }

  lemma NoChunks(id: nat)
    ensures ChunkEvents(id, []) == []
  {
  }

  lemma Regrouped<T>(before: seq<Keyed<T>>, rest: seq<Keyed<T>>)
    requires rest != []
    ensures (before + [rest[0]]) + rest[1..] == before + rest
    ensures (before + rest)[|before|] == rest[0]
  {
  }

  // The first record of the rest of a list is new, or shadowed.
  lemma NewOrShadowed<T>(before: seq<Keyed<T>>, rest: seq<Keyed<T>>)
    requires rest != []
    ensures Find(before, rest[0].id).None? || Shadowed(before + rest, |before|)
  {
    hide Find;
    FindMeaning(before, rest[0].id);
    var i := Find(before, rest[0].id);
    var list := before + rest;
    assert list[|before|] == rest[0];
    if i.Some? {
      assert list[i.value] == before[i.value];
    }
  }

  lemma {:induction false} ReplayTcp(s: Session, list: seq<Keyed<TcpStream>>)
    requires StreamsOk(s.tcpStreams + list)
    ensures RecordAll(s, TcpEvents(list)) == s.(tcpStreams := s.tcpStreams + list)
    decreases |list|
  {
    hide StreamEvents, Find, Record, Shadowed;
    if list == [] {
      assert s.tcpStreams + list == s.tcpStreams;
    } else {
      NewOrShadowed(s.tcpStreams, list);
      Regrouped(s.tcpStreams, list);
      RecordAllAppend(s, StreamEvents(list[0]), TcpEvents(list[1..]));
      ReplayStream(s, list[0]);
      ReplayTcp(s.(tcpStreams := s.tcpStreams + [list[0]]), list[1..]);
    }
  }

  lemma ReplayQuery(s: Session, x: Keyed<DnsExchange>)
    requires !x.item.completed ==> x.item.answers == [] && !x.item.overridden
    requires Find(s.dnsExchanges, x.id).None? || !x.item.completed
    ensures RecordAll(s, QueryEvents(x)) == s.(dnsExchanges := s.dnsExchanges + [x])
  {
    hide Find, RecordAll, Put, Held;
    var before := s.dnsExchanges;
    var d0 := DnsExchange(x.item.name, x.item.queryType, x.item.time, [], false, false);
    var s1 := s.(dnsExchanges := before + [Keyed(x.id, d0)]);
    var query := DnsQuery(x.id, x.item.name, x.item.queryType, x.item.time);
    var tail := if x.item.completed then [DnsResponse(x.id, x.item.answers, x.item.overridden)] else [];
    RecordAllAppend(s, [query], tail);
    RecordOne(s, query);
    if x.item.completed {
      LastPut(before, x.id, d0, x.item);
      RecordOne(s1, DnsResponse(x.id, x.item.answers, x.item.overridden));
    } else {
      RecordNothing(s1);
    }
  }

  lemma {:induction false} ReplayDns(s: Session, list: seq<Keyed<DnsExchange>>)
    requires ExchangesOk(s.dnsExchanges + list)
    ensures RecordAll(s, DnsEvents(list)) == s.(dnsExchanges := s.dnsExchanges + list)
    decreases |list|
  {
    hide QueryEvents, Find, Record, Shadowed;
    if list == [] {
      assert s.dnsExchanges + list == s.dnsExchanges;
    } else {
      NewOrShadowed(s.dnsExchanges, list);
      Regrouped(s.dnsExchanges, list);
      RecordAllAppend(s, QueryEvents(list[0]), DnsEvents(list[1..]));
      ReplayQuery(s, list[0]);
      ReplayDns(s.(dnsExchanges := s.dnsExchanges + [list[0]]), list[1..]);
    }
  }

  // ----- the journal rebuilds the session ------------------------------------

  lemma CanonicalReplays(s: Session)
    requires Canonical(s)
    ensures Replay(s) == s
  {
    hide RecordAll, Unique, StreamsOk, ExchangesOk, FlowEvents, WebSocketEvents, TcpEvents, DnsEvents, UdpEvents;
    var s0 := NewSession(s.createdAt);
    var s1 := s0.(flows := s.flows);
    var s2 := s1.(websockets := s.websockets);
    var s3 := s2.(tcpStreams := s.tcpStreams);
    var s4 := s3.(dnsExchanges := s.dnsExchanges);
    assert [] + s.flows == s.flows && [] + s.websockets == s.websockets && [] + s.tcpStreams == s.tcpStreams;
    assert [] + s.dnsExchanges == s.dnsExchanges && [] + s.udpExchanges == s.udpExchanges;
    var udp := UdpEvents(s.udpExchanges);
    var dns := DnsEvents(s.dnsExchanges) + udp;
    var tcp := TcpEvents(s.tcpStreams) + dns;
    RecordAllAppend(s0, FlowEvents(s.flows), WebSocketEvents(s.websockets) + tcp);
    ReplayFlows(s0, s.flows);
    RecordAllAppend(s1, WebSocketEvents(s.websockets), tcp);
    ReplayWebSockets(s1, s.websockets);
    RecordAllAppend(s2, TcpEvents(s.tcpStreams), dns);
    ReplayTcp(s2, s.tcpStreams);
    RecordAllAppend(s3, DnsEvents(s.dnsExchanges), udp);
    ReplayDns(s3, s.dnsExchanges);
    ReplayUdp(s4, s.udpExchanges);
  }

  // A session is rebuilt by its journal exactly when it is canonical; an edited
  // session file need not be.
  lemma ReplayExact(s: Session)
    ensures Replay(s) == s <==> Canonical(s)
  {
    if Canonical(s) {
      CanonicalReplays(s);
    }
    NewCanonical(s.createdAt);
    RecordAllCanonical(NewSession(s.createdAt), SessionEvents(s));
  }

  // A session that holds two requests under one identifier.
  const TWO_OF_ONE := Session(0, [Keyed(1, Exchange("a", "b")), Keyed(1, Exchange("a", "c"))], [], [], [], [])

  // No run of the recorder makes it, and its journal makes another.
  lemma EditedSession()
    ensures !Canonical(TWO_OF_ONE) && Replay(TWO_OF_ONE) != TWO_OF_ONE
  {
    hide Replay;
    assert TWO_OF_ONE.flows[0].id == TWO_OF_ONE.flows[1].id;
    ReplayExact(TWO_OF_ONE);
  }

  lemma NewCanonical(createdAt: int)
    ensures Canonical(NewSession(createdAt))
  {
  }

  datatype Deed = Recorded(event: Event) | Clear

  function Do(s: Session, d: Deed): Session {
    match d
    case Recorded(e) => Record(s, e)
    case Clear => Cleared(s)
  }

  function DoAll(s: Session, deeds: seq<Deed>): Session
    decreases |deeds|
  {
    if deeds == [] then s else DoAll(Do(s, deeds[0]), deeds[1..])
  }

  lemma {:induction false} DoAllCanonical(s: Session, deeds: seq<Deed>)
    requires Canonical(s)
    ensures Canonical(DoAll(s, deeds)) && DoAll(s, deeds).createdAt == s.createdAt
    decreases |deeds|
  {
    hide Canonical, Upsert, Put, Held;
    if deeds != [] {
      match deeds[0] {
        case Recorded(e) => RecordCanonical(s, e);
        case Clear => NewCanonical(s.createdAt);
      }
      DoAllCanonical(Do(s, deeds[0]), deeds[1..]);
    }
  }

  // Every session a recorder can reach, by any events in any order and any number of
  // clears, repeated identifiers and full streams included, is rebuilt identically
  // by its own journal.
  lemma JournalReplay(createdAt: int, deeds: seq<Deed>)
    ensures Replay(DoAll(NewSession(createdAt), deeds)) == DoAll(NewSession(createdAt), deeds)
  {
    hide Canonical, Replay, DoAll;
    NewCanonical(createdAt);
    DoAllCanonical(NewSession(createdAt), deeds);
    CanonicalReplays(DoAll(NewSession(createdAt), deeds));
  }

  // ----- the recorder --------------------------------------------------------

  class SessionRecorder {
    const createdAt: int
    var flows: seq<Keyed<Exchange>>
    var websockets: seq<Keyed<WebSocket>>
    var tcpStreams: seq<Keyed<TcpStream>>
    var dnsExchanges: seq<Keyed<DnsExchange>>
    var udpExchanges: seq<Keyed<Payload>>

    function Snapshot(): Session
      reads this
    {
      Session(createdAt, flows, websockets, tcpStreams, dnsExchanges, udpExchanges)
    }

    constructor (createdAt: int)
      ensures Snapshot() == NewSession(createdAt)
    {
      this.createdAt := createdAt;
      flows, websockets, tcpStreams, dnsExchanges, udpExchanges := [], [], [], [], [];
    }

    method ClearAll()
      modifies this
      ensures Snapshot() == Cleared(old(Snapshot()))
    {
      flows, websockets, tcpStreams, dnsExchanges, udpExchanges := [], [], [], [], [];
    }

    static method Position<T>(list: seq<Keyed<T>>, id: nat) returns (r: Option<nat>)
      ensures r == Find(list, id)
    {
      assert list[0..] == list;
      for i := 0 to |list|
        invariant Find(list, id) == match Find(list[i..], id) case None => None case Some(j) => Some(i + j)
      {
        assert list[i..][0] == list[i] && list[i..][1..] == list[i + 1..];
        if list[i].id == id {
          return Some(i);
        }
      }
      r := None;
    }

    method RecordHttp(e: Event)
      requires e.RequestComplete? || e.UdpExchange?
      modifies this
      ensures Snapshot() == Record(old(Snapshot()), e)
    {
      hide Find;
      match e
      case RequestComplete(id, exchange) =>
        var existing := Position(flows, id);
        if existing.Some? {
          flows := flows[existing.value := Keyed(id, exchange)];
        } else {
          flows := flows + [Keyed(id, exchange)];
        }
      case UdpExchange(id, exchange) =>
        var existing := Position(udpExchanges, id);
        if existing.Some? {
          udpExchanges := udpExchanges[existing.value := Keyed(id, exchange)];
        } else {
          udpExchanges := udpExchanges + [Keyed(id, exchange)];
        }
    }

    method RecordWebSocket(e: Event)
      requires e.WebSocketConnected? || e.WebSocketFrame? || e.WebSocketClosed?
      modifies this
      ensures Snapshot() == Record(old(Snapshot()), e)
    {
      hide Find;
      var existing := Position(websockets, e.id);
      match e
      case WebSocketConnected(id, exchange) =>
        var connection := Keyed(id, WebSocket(exchange, [], false));
        if existing.Some? {
          websockets := websockets[existing.value := connection];
        } else {
          websockets := websockets + [connection];
        }
      case WebSocketFrame(id, frame) =>
        if existing.Some? {
          var w := websockets[existing.value].item;
          websockets := websockets[existing.value := Keyed(id, w.(frames := w.frames + [frame]))];
        }
      case WebSocketClosed(id) =>
        if existing.Some? {
          var w := websockets[existing.value].item;
          websockets := websockets[existing.value := Keyed(id, w.(closed := true))];
        }
    }

    method RecordTcp(e: Event)
      requires e.TcpConnected? || e.TcpData? || e.TcpClosed?
      modifies this
      ensures Snapshot() == Record(old(Snapshot()), e)
    {
      hide Find;
      match e
      case TcpConnected(id, target, openedAt) =>
        tcpStreams := tcpStreams + [Keyed(id, TcpStream(target, openedAt, [], false))];
      case TcpData(id, chunk) =>
        var existing := Position(tcpStreams, id);
        if existing.Some? {
          var t := tcpStreams[existing.value].item;
          if |t.chunks| < MAX_CHUNKS_PER_STREAM {
            tcpStreams := tcpStreams[existing.value := Keyed(id, t.(chunks := t.chunks + [chunk]))];
          } else {
            FindMeaning(tcpStreams, id);
            assert tcpStreams[existing.value := Keyed(id, t)] == tcpStreams;
          }
        }
      case TcpClosed(id) =>
        var existing := Position(tcpStreams, id);
        if existing.Some? {
          var t := tcpStreams[existing.value].item;
          tcpStreams := tcpStreams[existing.value := Keyed(id, t.(closed := true))];
        }
    }

    method RecordDns(e: Event)
      requires e.DnsQuery? || e.DnsResponse?
      modifies this
      ensures Snapshot() == Record(old(Snapshot()), e)
    {
      hide Find;
      match e
      case DnsQuery(id, name, queryType, time) =>
        dnsExchanges := dnsExchanges + [Keyed(id, DnsExchange(name, queryType, time, [], false, false))];
      case DnsResponse(id, answers, overridden) =>
        var existing := Position(dnsExchanges, id);
        if existing.Some? {
          var d := dnsExchanges[existing.value].item;
          dnsExchanges := dnsExchanges[existing.value :=
            Keyed(id, d.(answers := answers, overridden := overridden, completed := true))];
        }
    }

    // Apply one event. Pending and error events leave no trace.
    method RecordEvent(e: Event)
      modifies this
      ensures Snapshot() == Record(old(Snapshot()), e)
    {
      hide Upsert, Put, Held;
      match e
      case RequestComplete(_, _) => RecordHttp(e);
      case UdpExchange(_, _) => RecordHttp(e);
      case WebSocketConnected(_, _) => RecordWebSocket(e);
      case WebSocketFrame(_, _) => RecordWebSocket(e);
      case WebSocketClosed(_) => RecordWebSocket(e);
      case TcpConnected(_, _, _) => RecordTcp(e);
      case TcpData(_, _) => RecordTcp(e);
      case TcpClosed(_) => RecordTcp(e);
      case DnsQuery(_, _, _, _) => RecordDns(e);
      case DnsResponse(_, _, _) => RecordDns(e);
      case _ =>
    }
  }
}
