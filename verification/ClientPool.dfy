// The keep-alive pool and its connection workers as one state machine. Every step
// is one atomic action of a caller of `send_with_upgrade` or of a worker running
// `run_client`; a run is any interleaving of them.
module ClientPool {
  import opened Results

  type CallId = nat
  type ConnId = nat

  datatype PoolKey = PoolKey(destination: string, tls: bool, outboundRoute: Option<string>)

  const MAX_CONNECTIONS_PER_KEY: nat := 5

  // What a worker tells the caller of one queued command.
  datatype Outcome = Response | Failure | NotSent

  // A caller's command; `attempt` tells the retries of one call apart.
  datatype Command = Command(call: CallId, attempt: nat)

  // Where a worker is in its loop. From `Taken` to `Leaving` it owns the permit
  // that came with the command.
  datatype Worker =
    | Idle
    | Taken(cmd: Command)      // dequeued, nothing written
    | Writing(cmd: Command)    // bytes may have reached the peer
    | Answered(cmd: Command)   // outcome sent, response body still being read
    | Leaving(cmd: Command)    // out of the loop, permit not yet dropped
    | Left                     // out of the loop
    | Draining                 // command channel closed
    | Gone

  // One connection: its semaphore (permits left, and whether it has been closed),
  // its command channel, and its worker.
  datatype Conn = Conn(key: PoolKey, available: nat, shut: bool, queue: seq<Command>, worker: Worker)

  // Where a call is.
  datatype Phase =
    | AtStart
    | WantsLock
    | HasLock
    | Connecting
    | HasClient(conn: ConnId)
    | HasPermit(conn: ConnId)
    | Waiting(conn: ConnId)
    | Reserved(conn: ConnId, reused: bool)
    | Sent(conn: ConnId, reused: bool, mail: Option<Outcome>)
    | Removing(conn: ConnId, reused: bool, failed: bool)
    | Finished(ok: bool)
    | Cancelled

  // A call, with the history the properties speak of: how often it dialled, the
  // connection of each command it queued, the attempts whose request was begun to
  // be written, and the outcome of each attempt that has one.
  datatype Call = Call(key: PoolKey, phase: Phase, dials: nat,
                       attempts: seq<ConnId>, writes: seq<nat>, outcomes: map<nat, seq<Outcome>>)

  datatype Entry = Entry(clients: seq<ConnId>, next: nat, lock: Option<CallId>)

  datatype System = System(calls: map<CallId, Call>, conns: map<ConnId, Conn>, entries: map<PoolKey, Entry>)

  const EMPTY_ENTRY: Entry := Entry([], 0, None)
  const USIZE_LIMIT: nat := 0x1_0000_0000_0000_0000

  function EntryOf(s: System, key: PoolKey): Entry {
    if key in s.entries then s.entries[key] else EMPTY_ENTRY
  }

  predicate ChannelClosed(w: Worker) {
    w.Draining? || w.Gone?
  }

  predicate OutOfLoop(w: Worker) {
    w.Leaving? || w.Left? || w.Draining? || w.Gone?
  }

  // The worker owns a permit.
  predicate Busy(w: Worker) {
    w.Taken? || w.Writing? || w.Answered? || w.Leaving?
  }

  // The worker has taken a command and not answered it.
  predicate Unanswered(w: Worker) {
    w.Taken? || w.Writing?
  }

  function Minus(clients: seq<ConnId>, gone: set<ConnId>): (r: seq<ConnId>)
    ensures |r| <= |clients|
    ensures forall c :: c in r <==> c in clients && c !in gone
  {
    if clients == [] then []
    else if clients[0] in gone then Minus(clients[1..], gone)
    else [clients[0]] + Minus(clients[1..], gone)
  }

  // ----- steps ---------------------------------------------------------------

  datatype Step =
    // callers
    | Begin(call: CallId, key: PoolKey)
    | ChooseReserve(call: CallId, dropped: set<ConnId>, conn: ConnId)
    | ChooseConnect(call: CallId, dropped: set<ConnId>)
    | ChooseWait(call: CallId, dropped: set<ConnId>)
    | TakeLock(call: CallId)
    | ConnectFails(call: CallId)
    | ConnectWorks(call: CallId, conn: ConnId)
    | TryPermit(call: CallId)
    | Register(call: CallId)
    | GetPermit(call: CallId)
    | SendCommand(call: CallId)
    | Receive(call: CallId)
    | Remove(call: CallId)
    | Cancel(call: CallId)
    // workers
    | IdleEnds(conn: ConnId)
    | Take(conn: ConnId)
    | Refuse(conn: ConnId)
    | BeginWrite(conn: ConnId)
    | FailExchange(conn: ConnId)
    | Answer(conn: ConnId, upgraded: bool)
    | FinishBody(conn: ConnId, keepAlive: bool)
    | FailBody(conn: ConnId)
    | DropPermit(conn: ConnId)
    | CloseChannel(conn: ConnId)
    | CloseSemaphore(conn: ConnId)
    | Drain(conn: ConnId)
    | Stop(conn: ConnId)

  // The phases in which the per-key connect lock is held.
  predicate HoldsLock(p: Phase) {
    p.HasLock? || p.Connecting? || p.HasClient? || p.HasPermit?
  }

  // The phases in which the caller itself holds a permit.
  predicate HoldsPermit(p: Phase) {
    p.HasPermit? || p.Reserved?
  }

  predicate MayChoose(p: Phase) {
    p.AtStart? || p.HasLock?
  }

  // A client may be dropped from the list only when its channel is closed; one that
  // closes after it was looked at stays.
  predicate AllClosed(s: System, dropped: set<ConnId>) {
    forall c :: c in dropped ==> c in s.conns && ChannelClosed(s.conns[c].worker)
  }

  function Kept(s: System, q: CallId, dropped: set<ConnId>): seq<ConnId>
    requires q in s.calls
  {
    Minus(EntryOf(s, s.calls[q].key).clients, dropped)
  }

  predicate CallEnabled(s: System, step: Step, q: CallId)
    requires q in s.calls
  {
    var call := s.calls[q];
    var p := call.phase;
    match step
    case ChooseReserve(_, dropped, c) =>
      MayChoose(p) && AllClosed(s, dropped) && c in Kept(s, q, dropped)
      && c in s.conns && s.conns[c].available > 0 && !s.conns[c].shut
    case ChooseConnect(_, dropped) =>
      MayChoose(p) && AllClosed(s, dropped) && |Kept(s, q, dropped)| < MAX_CONNECTIONS_PER_KEY
    case ChooseWait(_, dropped) =>
      MayChoose(p) && AllClosed(s, dropped) && |Kept(s, q, dropped)| >= MAX_CONNECTIONS_PER_KEY
    case TakeLock(_) => p.WantsLock? && EntryOf(s, call.key).lock.None?
    case ConnectFails(_) => p.Connecting?
    case ConnectWorks(_, c) => p.Connecting? && c !in s.conns
    case TryPermit(_) => p.HasClient? && p.conn in s.conns
    case Register(_) => p.HasPermit?
    case GetPermit(_) => p.Waiting? && p.conn in s.conns && (s.conns[p.conn].shut || s.conns[p.conn].available > 0)
    case SendCommand(_) =>
      p.Reserved? && p.conn in s.conns
      && (ChannelClosed(s.conns[p.conn].worker) || s.conns[p.conn].queue == [])
    case Receive(_) => p.Sent? && p.mail.Some?
    case Remove(_) => p.Removing?
    case Cancel(_) => !p.Finished? && !p.Cancelled? && (HoldsPermit(p) ==> p.conn in s.conns)
    case _ => false
  }

  // The steps of a worker that concern its connection alone.
  predicate IsMove(step: Step) {
    step.IdleEnds? || step.Take? || step.FinishBody? || step.FailBody? || step.DropPermit? || step.CloseChannel?
    || step.CloseSemaphore? || step.Stop?
  }

  predicate MoveEnabled(conn: Conn, step: Step) {
    var w := conn.worker;
    match step
    case IdleEnds(_) => w.Idle?
    case Take(_) => w.Idle? && conn.queue != []
    case FinishBody(_, _) => w.Answered?
    case FailBody(_) => w.Answered?
    case DropPermit(_) => w.Leaving?
    case CloseChannel(_) => w.Left?
    case CloseSemaphore(_) => w.Draining?
    case Stop(_) => w.Draining? && conn.shut && conn.queue == []
    case _ => false
  }

  // The steps that answer a command.
  predicate IsReply(step: Step) {
    step.Refuse? || step.FailExchange? || step.Answer? || step.Drain?
  }

  predicate ReplyEnabled(conn: Conn, step: Step) {
    var w := conn.worker;
    match step
    case Refuse(_) => w.Taken?
    case FailExchange(_) => w.Writing?
    case Answer(_, _) => w.Writing?
    case Drain(_) => w.Draining? && conn.shut && conn.queue != []
    case _ => false
  }

  function ReplyCommand(conn: Conn, step: Step): Command
    requires ReplyEnabled(conn, step)
  {
    if step.Drain? then conn.queue[0] else conn.worker.cmd
  }

  function ReplyOutcome(step: Step): Outcome {
    match step
    case Drain(_) => NotSent
    case Answer(_, _) => Response
    case _ => Failure
  }

  function Replied(conn: Conn, step: Step): Conn
    requires ReplyEnabled(conn, step)
  {
    match step
    case Refuse(_) => conn.(worker := Leaving(conn.worker.cmd))
    case FailExchange(_) => conn.(worker := Leaving(conn.worker.cmd))
    case Answer(_, upgraded) => conn.(worker := if upgraded then Leaving(conn.worker.cmd) else Answered(conn.worker.cmd))
    case Drain(_) => Release(conn).(queue := conn.queue[1..])
  }

  predicate WorkerEnabled(s: System, step: Step, c: ConnId)
    requires c in s.conns
  {
    var conn := s.conns[c];
    if IsReply(step) then ReplyEnabled(conn, step) && ReplyCommand(conn, step).call in s.calls
    else if step.BeginWrite? then conn.worker.Taken? && conn.worker.cmd.call in s.calls
    else MoveEnabled(conn, step)
  }

  predicate IsWorkerStep(step: Step) {
    IsMove(step) || IsReply(step) || step.BeginWrite?
  }

  predicate Enabled(s: System, step: Step) {
    if step.Begin? then step.call !in s.calls
    else if IsWorkerStep(step) then step.conn in s.conns && WorkerEnabled(s, step, step.conn)
    else step.call in s.calls && CallEnabled(s, step, step.call)
  }

  // ----- effects -------------------------------------------------------------

  function SetPhase(s: System, q: CallId, p: Phase): System
    requires q in s.calls
  {
    s.(calls := s.calls[q := s.calls[q].(phase := p)])
  }

  function SetConn(s: System, c: ConnId, conn: Conn): System {
    s.(conns := s.conns[c := conn])
  }

  function SetEntry(s: System, key: PoolKey, e: Entry): System {
    s.(entries := s.entries[key := e])
  }

  function Release(conn: Conn): Conn {
    conn.(available := conn.available + 1)
  }

  // Returning from `acquire` drops the guard of the connect lock if it is held.
  function Unlocked(e: Entry, p: Phase): Entry {
    if HoldsLock(p) then e.(lock := None) else e
  }

  // The worker's answer: recorded, and delivered if the caller still waits for it.
  function Told(call: Call, attempt: nat, o: Outcome): Call {
    var told := call.(outcomes := call.outcomes[attempt := OutcomesAt(call, attempt) + [o]]);
    if call.phase.Sent? && call.phase.mail.None? && attempt == |call.attempts| - 1
    then told.(phase := Sent(call.phase.conn, call.phase.reused, Some(o)))
    else told
  }

  function SetCall(s: System, q: CallId, call: Call): System {
    s.(calls := s.calls[q := call])
  }

  function OutcomesAt(call: Call, attempt: nat): seq<Outcome> {
    if attempt in call.outcomes then call.outcomes[attempt] else []
  }

  function ApplyChoice(s: System, step: Step, q: CallId): System
    requires q in s.calls && (step.ChooseReserve? || step.ChooseConnect? || step.ChooseWait?)
    requires CallEnabled(s, step, q)
  {
    var call := s.calls[q];
    var e := EntryOf(s, call.key);
    var kept := Kept(s, q, step.dropped);
    match step
    case ChooseReserve(_, _, c) =>
      var taken := SetConn(s, c, s.conns[c].(available := s.conns[c].available - 1));
      SetPhase(SetEntry(taken, call.key, Unlocked(e.(clients := kept), call.phase)), q, Reserved(c, true))
    case ChooseConnect(_, _) =>
      var next := SetEntry(s, call.key, e.(clients := kept));
      if call.phase.AtStart? then SetPhase(next, q, WantsLock)
      else next.(calls := next.calls[q := call.(phase := Connecting, dials := call.dials + 1)])
    case ChooseWait(_, _) =>
      var picked := kept[e.next % |kept|];
      SetPhase(SetEntry(s, call.key, Unlocked(Entry(kept, (e.next + 1) % USIZE_LIMIT, e.lock), call.phase)), q, Waiting(picked))
  }

  function ApplyCall(s: System, step: Step, q: CallId): System
    requires q in s.calls && CallEnabled(s, step, q)
  {
    var call := s.calls[q];
    var p := call.phase;
    var e := EntryOf(s, call.key);
    match step
    case ChooseReserve(_, _, _) => ApplyChoice(s, step, q)
    case ChooseConnect(_, _) => ApplyChoice(s, step, q)
    case ChooseWait(_, _) => ApplyChoice(s, step, q)
    case TakeLock(_) => SetPhase(SetEntry(s, call.key, e.(lock := Some(q))), q, HasLock)
    case ConnectFails(_) => SetPhase(SetEntry(s, call.key, Unlocked(e, p)), q, Finished(false))
    case ConnectWorks(_, c) => SetPhase(SetConn(s, c, Conn(call.key, 1, false, [], Idle)), q, HasClient(c))
    case TryPermit(_) =>
      var conn := s.conns[p.conn];
      if conn.shut || conn.available == 0 then SetPhase(SetEntry(s, call.key, Unlocked(e, p)), q, Finished(false))
      else SetPhase(SetConn(s, p.conn, conn.(available := conn.available - 1)), q, HasPermit(p.conn))
    case Register(_) =>
      SetPhase(SetEntry(s, call.key, Unlocked(e.(clients := e.clients + [p.conn]), p)), q, Reserved(p.conn, false))
    case GetPermit(_) =>
      var conn := s.conns[p.conn];
      if conn.shut then SetPhase(s, q, Removing(p.conn, true, false))
      else SetPhase(SetConn(s, p.conn, conn.(available := conn.available - 1)), q, Reserved(p.conn, true))
    case SendCommand(_) =>
      var conn := s.conns[p.conn];
      if ChannelClosed(conn.worker) then SetPhase(SetConn(s, p.conn, Release(conn)), q, Removing(p.conn, p.reused, false))
      else
        var queued := SetConn(s, p.conn, conn.(queue := conn.queue + [Command(q, |call.attempts|)]));
        queued.(calls := s.calls[q := call.(phase := Sent(p.conn, p.reused, None), attempts := call.attempts + [p.conn])])
    case Receive(_) =>
      SetPhase(s, q, if p.mail.value.Response? then Finished(true)
                     else Removing(p.conn, p.reused, p.mail.value.Failure?))
    case Remove(_) =>
      SetPhase(SetEntry(s, call.key, e.(clients := Minus(e.clients, {p.conn}))), q,
               if p.failed || !p.reused then Finished(false) else AtStart)
    case Cancel(_) =>
      var freed := if HoldsPermit(p) then SetConn(s, p.conn, Release(s.conns[p.conn])) else s;
      SetPhase(if HoldsLock(p) then SetEntry(freed, call.key, Unlocked(e, p)) else freed, q, Cancelled)
  }

  function Moved(conn: Conn, step: Step): Conn
    requires MoveEnabled(conn, step)
  {
    match step
    case IdleEnds(_) => conn.(worker := Left)
    case Take(_) => conn.(queue := conn.queue[1..], worker := Taken(conn.queue[0]))
    case FinishBody(_, keepAlive) => Release(conn).(worker := if keepAlive then Idle else Left)
    case FailBody(_) => conn.(worker := Leaving(conn.worker.cmd))
    case DropPermit(_) => Release(conn).(worker := Left)
    case CloseChannel(_) => conn.(worker := Draining)
    case CloseSemaphore(_) => conn.(shut := true)
    case Stop(_) => conn.(worker := Gone)
  }

  function ApplyWorker(s: System, step: Step, c: ConnId): System
    requires c in s.conns && WorkerEnabled(s, step, c)
  {
    var conn := s.conns[c];
    if IsReply(step) then
      var cmd := ReplyCommand(conn, step);
      SetCall(SetConn(s, c, Replied(conn, step)), cmd.call, Told(s.calls[cmd.call], cmd.attempt, ReplyOutcome(step)))
    else if step.BeginWrite? then
      var cmd := conn.worker.cmd;
      var call := s.calls[cmd.call];
      SetCall(SetConn(s, c, conn.(worker := Writing(cmd))), cmd.call, call.(writes := call.writes + [cmd.attempt]))
    else SetConn(s, c, Moved(conn, step))
  }

  function Apply(s: System, step: Step): System
    requires Enabled(s, step)
  {
    if step.Begin? then s.(calls := s.calls[step.call := Call(step.key, AtStart, 0, [], [], map[])])
    else if IsWorkerStep(step) then ApplyWorker(s, step, step.conn)
    else ApplyCall(s, step, step.call)
  }

  // ----- runs ----------------------------------------------------------------

  const INITIAL: System := System(map[], map[], map[])

  predicate IsRun(s: System, steps: seq<Step>)
    decreases |steps|
  {
    steps == [] || (Enabled(s, steps[0]) && IsRun(Apply(s, steps[0]), steps[1..]))
  }

  function After(s: System, steps: seq<Step>): System
    requires IsRun(s, steps)
    decreases |steps|
  {
    if steps == [] then s else After(Apply(s, steps[0]), steps[1..])
  }
}
