// How calls end: a call fails for a reason, and connections are used again. A pool that
// gave up on stale connections, or never kept one, would not meet these.
module PoolOutcomes {
  import opened Results
  import opened ClientPool
  import opened ClientPoolSafety
  import opened PoolGuarantees

  // ----- a failed call had a reason ------------------------------------------

  function LastOutcome(call: Call): seq<Outcome> {
    if call.attempts == [] then [] else OutcomesAt(call, |call.attempts| - 1)
  }

  // A call ends well with a response to its last attempt, and badly only after it has
  // dialled or its last attempt failed at a worker's hands.
  ghost predicate Reasoned(call: Call) {
    match call.phase
    case Finished(ok) =>
      if ok then LastOutcome(call) == [Response] else call.dials == 1 || LastOutcome(call) == [Failure]
    case Removing(_, _, failed) => failed ==> LastOutcome(call) == [Failure]
    case _ => true
  }

  ghost predicate AllReasoned(s: System) {
    forall q :: q in s.calls ==> Reasoned(s.calls[q])
  }

  lemma CallerReasoned(s: System, step: Step)
    requires !step.Begin? && !IsWorkerStep(step) && Enabled(s, step)
    requires CallOk(s.calls[step.call]) && Reasoned(s.calls[step.call])
    ensures step.call in Apply(s, step).calls && Reasoned(Apply(s, step).calls[step.call])
  {
    hide Kept, AllClosed, EntryOf, Unlocked, Minus;
  }

  // An answer goes to an attempt that has none, so it changes no call that is through.
  lemma ToldReasoned(q: CallId, call: Call, c: ConnId, conn: Conn, k: nat, o: Outcome)
    requires CallOk(call) && HistoryLinked(q, call, c, conn) && Pending(conn, Command(q, k)) && Reasoned(call)
    ensures Reasoned(Told(call, k, o))
  {
    assert k == Last(call) && k !in call.outcomes;
  }

  lemma ReplyPending(conn: Conn, step: Step)
    requires ReplyEnabled(conn, step)
    ensures Pending(conn, ReplyCommand(conn, step))
  {
  }

  lemma WorkerReasoned(s: System, step: Step, q: CallId)
    requires Inv(s) && IsWorkerStep(step) && Enabled(s, step) && q in s.calls && Reasoned(s.calls[q])
    ensures q in Apply(s, step).calls && Reasoned(Apply(s, step).calls[q])
  {
    hide Inv, Moved, MoveEnabled, Replied, ReplyEnabled, ReplyCommand, ReplyOutcome, Told, CallOk, LockOk, Pending,
         HistoryLinked, PhaseLinked, PooledFor;
    if IsReply(step) {
      var conn := s.conns[step.conn];
      var cmd := ReplyCommand(conn, step);
      if cmd.call == q {
        InvCall(s, q);
        InvLink(s, q, step.conn);
        ReplyPending(conn, step);
        ToldReasoned(q, s.calls[q], step.conn, conn, cmd.attempt, ReplyOutcome(step));
      }
    }
  }

  lemma StepReasoned(s: System, step: Step)
    requires Inv(s) && AllReasoned(s) && Enabled(s, step)
    ensures AllReasoned(Apply(s, step))
  {
    hide Inv, Apply, Reasoned, CallOk, LockOk;
    forall q | q in Apply(s, step).calls ensures Reasoned(Apply(s, step).calls[q]) {
      if step.Begin? {
        NewReasoned(s, step, q);
      } else if IsWorkerStep(step) {
        WorkerCalls(s, step);
        WorkerReasoned(s, step, q);
      } else if q == step.call {
        InvCall(s, q);
        CallerReasoned(s, step);
      } else {
        CallerCalls(s, step);
        CallerOthers(s, step, q);
      }
    }
  }

  lemma NewReasoned(s: System, step: Step, q: CallId)
    requires step.Begin? && Enabled(s, step) && AllReasoned(s) && q in Apply(s, step).calls
    ensures Reasoned(Apply(s, step).calls[q])
  {
    hide LastOutcome;
  }

  lemma WorkerCalls(s: System, step: Step)
    requires IsWorkerStep(step) && Enabled(s, step)
    ensures Apply(s, step).calls.Keys == s.calls.Keys
  {
    hide Moved, MoveEnabled, Replied, ReplyEnabled;
  }

  lemma CallerCalls(s: System, step: Step)
    requires !step.Begin? && !IsWorkerStep(step) && Enabled(s, step)
    ensures Apply(s, step).calls.Keys == s.calls.Keys
  {
    hide Kept, AllClosed, EntryOf, Unlocked, Minus;
  }

  lemma {:induction false} RunReasoned(s: System, steps: seq<Step>)
    requires Inv(s) && AllReasoned(s) && IsRun(s, steps)
    ensures AllReasoned(After(s, steps))
    decreases |steps|
  {
    hide Inv, AllReasoned, Enabled, Apply;
    if steps != [] {
      StepKeeps(s, steps[0]);
      StepReasoned(s, steps[0]);
      RunReasoned(Apply(s, steps[0]), steps[1..]);
    }
  }

  lemma InitialInv()
    ensures Inv(INITIAL)
  {
    ReachableInv([]);
  }

  // In every reachable state a call that failed had dialled a connection of its own, or a
  // worker had failed its last attempt: stale pooled connections alone fail no call. And
  // a call that succeeded has the response to its last attempt.
  lemma FailuresHaveReasons(steps: seq<Step>, q: CallId)
    requires IsRun(INITIAL, steps) && q in After(INITIAL, steps).calls
    ensures
      var call := After(INITIAL, steps).calls[q];
      (call.phase == Finished(false) ==> call.dials == 1 || LastOutcome(call) == [Failure])
      && (call.phase == Finished(true) ==> LastOutcome(call) == [Response])
  {
    hide After, IsRun, LastOutcome;
    InitialInv();
    RunReasoned(INITIAL, steps);
    assert Reasoned(After(INITIAL, steps).calls[q]);
  }

  // ----- connections are used again ------------------------------------------

  // A client that is free: its worker waits for a command and its permit is there.
  predicate FreeConn(s: System, c: ConnId, key: PoolKey) {
    c in s.conns && s.conns[c] == Conn(key, 1, false, [], Idle)
  }

  predicate Ready(s: System, q: CallId, key: PoolKey) {
    q in s.calls && s.calls[q].phase.AtStart? && s.calls[q].key == key
  }

  // A state in which one call, one connection and one entry are as given.
  function At(s: System, q: CallId, call: Call, c: ConnId, conn: Conn, e: Entry): System {
    System(s.calls[q := call], s.conns[c := conn], s.entries[call.key := e])
  }

  lemma AtAgain(s: System, q: CallId, call: Call, c: ConnId, conn: Conn, e: Entry, call2: Call, conn2: Conn, e2: Entry)
    requires call2.key == call.key
    ensures
      var t := At(s, q, call, c, conn, e);
      t.calls[q] == call && t.conns[c] == conn && EntryOf(t, call.key) == e
      && SetCall(t, q, call2) == At(s, q, call2, c, conn, e)
      && SetConn(t, c, conn2) == At(s, q, call, c, conn2, e)
      && SetEntry(t, call.key, e2) == At(s, q, call, c, conn, e2)
  {
    var t := At(s, q, call, c, conn, e);
    assert t.calls[q := call2] == s.calls[q := call2];
    assert t.conns[c := conn2] == s.conns[c := conn2];
    assert t.entries[call.key := e2] == s.entries[call.key := e2];
  }

  // What a call's request goes through once it has a permit, when nothing fails.
  function Exchange(q: CallId, c: ConnId): seq<Step> {
    [SendCommand(q), Take(c), BeginWrite(c), Answer(c, false), Receive(q), FinishBody(c, true)]
  }

  lemma SendStep(s: System, q: CallId, call: Call, c: ConnId, conn: Conn, e: Entry)
    requires call.phase.Reserved? && call.phase.conn == c && conn.worker.Idle? && conn.queue == []
    ensures
      var t := At(s, q, call, c, conn, e);
      Enabled(t, SendCommand(q))
      && Apply(t, SendCommand(q))
         == At(s, q, call.(phase := Sent(c, call.phase.reused, None), attempts := call.attempts + [c]), c,
               conn.(queue := [Command(q, |call.attempts|)]), e)
  {
    var next := call.(phase := Sent(c, call.phase.reused, None), attempts := call.attempts + [c]);
    var queued := conn.(queue := [Command(q, |call.attempts|)]);
    AtAgain(s, q, call, c, conn, e, next, queued, e);
    AtAgain(s, q, call, c, queued, e, next, queued, e);
    assert conn.queue + [Command(q, |call.attempts|)] == queued.queue;
  }

  lemma TakeStep(s: System, q: CallId, call: Call, c: ConnId, conn: Conn, e: Entry, cmd: Command)
    requires conn.worker.Idle? && conn.queue == [cmd]
    ensures
      var t := At(s, q, call, c, conn, e);
      Enabled(t, Take(c)) && Apply(t, Take(c)) == At(s, q, call, c, conn.(queue := [], worker := Taken(cmd)), e)
  {
    AtAgain(s, q, call, c, conn, e, call, conn.(queue := [], worker := Taken(cmd)), e);
    assert [cmd][1..] == [];
  }

  lemma WriteStep(s: System, q: CallId, call: Call, c: ConnId, conn: Conn, e: Entry, k: nat)
    requires conn.worker == Taken(Command(q, k))
    ensures
      var t := At(s, q, call, c, conn, e);
      Enabled(t, BeginWrite(c))
      && Apply(t, BeginWrite(c)) == At(s, q, call.(writes := call.writes + [k]), c, conn.(worker := Writing(Command(q, k))), e)
  {
    var next := call.(writes := call.writes + [k]);
    var moved := conn.(worker := Writing(Command(q, k)));
    AtAgain(s, q, call, c, conn, e, next, moved, e);
    AtAgain(s, q, call, c, moved, e, next, moved, e);
  }

  lemma AnswerStep(s: System, q: CallId, call: Call, c: ConnId, conn: Conn, e: Entry, k: nat)
    requires conn.worker == Writing(Command(q, k)) && call.phase.Sent? && call.phase.mail.None?
    requires k == |call.attempts| - 1 && k !in call.outcomes
    ensures
      var t := At(s, q, call, c, conn, e);
      Enabled(t, Answer(c, false))
      && Apply(t, Answer(c, false))
         == At(s, q, call.(outcomes := call.outcomes[k := [Response]],
                           phase := Sent(call.phase.conn, call.phase.reused, Some(Response))), c,
               conn.(worker := Answered(Command(q, k))), e)
  {
    var next := call.(outcomes := call.outcomes[k := [Response]],
                      phase := Sent(call.phase.conn, call.phase.reused, Some(Response)));
    var moved := conn.(worker := Answered(Command(q, k)));
    AtAgain(s, q, call, c, conn, e, next, moved, e);
    AtAgain(s, q, call, c, moved, e, next, moved, e);
    assert [] + [Response] == [Response];
  }

  lemma ReceiveStep(s: System, q: CallId, call: Call, c: ConnId, conn: Conn, e: Entry)
    requires call.phase.Sent? && call.phase.mail == Some(Response)
    ensures
      var t := At(s, q, call, c, conn, e);
      Enabled(t, Receive(q)) && Apply(t, Receive(q)) == At(s, q, call.(phase := Finished(true)), c, conn, e)
  {
    AtAgain(s, q, call, c, conn, e, call.(phase := Finished(true)), conn, e);
  }

  lemma FinishStep(s: System, q: CallId, call: Call, c: ConnId, conn: Conn, e: Entry)
    requires conn.worker.Answered?
    ensures
      var t := At(s, q, call, c, conn, e);
      Enabled(t, FinishBody(c, true))
      && Apply(t, FinishBody(c, true)) == At(s, q, call, c, conn.(available := conn.available + 1, worker := Idle), e)
  {
    AtAgain(s, q, call, c, conn, e, call, conn.(available := conn.available + 1, worker := Idle), e);
  }

  // With a permit in its hands and nothing in the way, a call gets its answer over that
  // connection, which is then free again.
  lemma ExchangeServes(s: System, q: CallId, call: Call, c: ConnId, key: PoolKey, e: Entry)
    requires call.phase.Reserved? && call.phase.conn == c && |call.attempts| !in call.outcomes
    ensures
      var t := At(s, q, call, c, Conn(key, 0, false, [], Idle), e);
      var k := |call.attempts|;
      IsRun(t, Exchange(q, c))
      && After(t, Exchange(q, c))
         == At(s, q, call.(phase := Finished(true), attempts := call.attempts + [c], writes := call.writes + [k],
                           outcomes := call.outcomes[k := [Response]]), c, Conn(key, 1, false, [], Idle), e)
  {
    hide Enabled, Apply, At, IsRun, After;
    var k := |call.attempts|;
    var cmd := Command(q, k);
    var conn := Conn(key, 0, false, [], Idle);
    SendStep(s, q, call, c, conn, e);
    var sent := call.(phase := Sent(c, call.phase.reused, None), attempts := call.attempts + [c]);
    TakeStep(s, q, sent, c, conn.(queue := [cmd]), e, cmd);
    WriteStep(s, q, sent, c, conn.(worker := Taken(cmd)), e, k);
    var written := sent.(writes := call.writes + [k]);
    AnswerStep(s, q, written, c, conn.(worker := Writing(cmd)), e, k);
    var told := written.(outcomes := call.outcomes[k := [Response]], phase := Sent(c, call.phase.reused, Some(Response)));
    ReceiveStep(s, q, told, c, conn.(worker := Answered(cmd)), e);
    var done := told.(phase := Finished(true));
    FinishStep(s, q, done, c, conn.(worker := Answered(cmd)), e);
    RunOfSix(At(s, q, call, c, conn, e), Exchange(q, c),
             At(s, q, sent, c, conn.(queue := [cmd]), e), At(s, q, sent, c, conn.(worker := Taken(cmd)), e),
             At(s, q, written, c, conn.(worker := Writing(cmd)), e), At(s, q, told, c, conn.(worker := Answered(cmd)), e),
             At(s, q, done, c, conn.(worker := Answered(cmd)), e), At(s, q, done, c, conn.(available := 1), e));
  }

  lemma RunOfSix(s: System, steps: seq<Step>, s1: System, s2: System, s3: System, s4: System, s5: System, s6: System)
    requires |steps| == 6
    requires Enabled(s, steps[0]) && s1 == Apply(s, steps[0]) && Enabled(s1, steps[1]) && s2 == Apply(s1, steps[1])
    requires Enabled(s2, steps[2]) && s3 == Apply(s2, steps[2]) && Enabled(s3, steps[3]) && s4 == Apply(s3, steps[3])
    requires Enabled(s4, steps[4]) && s5 == Apply(s4, steps[4]) && Enabled(s5, steps[5]) && s6 == Apply(s5, steps[5])
    ensures IsRun(s, steps) && After(s, steps) == s6
  {
    hide Enabled, Apply;
    assert steps[1..][1..] == steps[2..] && steps[2..][1..] == steps[3..] && steps[3..][1..] == steps[4..];
    assert steps[4..][1..] == steps[5..] && steps[5..][1..] == [];
    assert IsRun(s5, steps[5..]) && After(s5, steps[5..]) == s6;
    assert IsRun(s4, steps[4..]) && After(s4, steps[4..]) == s6;
    assert IsRun(s3, steps[3..]) && After(s3, steps[3..]) == s6;
    assert IsRun(s2, steps[2..]) && After(s2, steps[2..]) == s6;
    assert IsRun(s1, steps[1..]) && After(s1, steps[1..]) == s6;
  }

  lemma {:induction false} RunsInTurn(s: System, first: seq<Step>, more: seq<Step>)
    requires IsRun(s, first) && IsRun(After(s, first), more)
    ensures IsRun(s, first + more) && After(s, first + more) == After(After(s, first), more)
    decreases |first|
  {
    hide Enabled, Apply;
    if first == [] {
      assert first + more == more;
    } else {
      assert (first + more)[0] == first[0] && (first + more)[1..] == first[1..] + more;
      RunsInTurn(Apply(s, first[0]), first[1..], more);
    }
  }

  lemma OneStep(s: System, step: Step)
    requires Enabled(s, step)
    ensures IsRun(s, [step]) && After(s, [step]) == Apply(s, step)
  {
    hide Enabled, Apply;
    assert [step][1..] == [];
  }

  lemma {:induction false} MinusNothing(clients: seq<ConnId>)
    ensures Minus(clients, {}) == clients
  {
    if clients != [] {
      MinusNothing(clients[1..]);
    }
  }

  lemma NoOutcomeYet(call: Call)
    requires CallOk(call)
    ensures |call.attempts| !in call.outcomes
  {
  }

  lemma FreeReserved(s: System, q: CallId, c: ConnId, key: PoolKey)
    requires Ready(s, q, key) && FreeConn(s, c, key) && c in EntryOf(s, key).clients
    ensures q in s.calls
    ensures
      var e := EntryOf(s, key);
      Enabled(s, ChooseReserve(q, {}, c))
      && Apply(s, ChooseReserve(q, {}, c))
         == At(s, q, s.calls[q].(phase := Reserved(c, true)), c, Conn(key, 0, false, [], Idle), e)
  {
    var e := EntryOf(s, key);
    MinusNothing(e.clients);
    assert e.(clients := e.clients) == e;
  }

  // A free pooled client is reused: a call that finds one is served over it without
  // dialling, and leaves client and list as it found them.
  lemma FreeIsReused(s: System, q: CallId, c: ConnId, key: PoolKey)
    requires Ready(s, q, key) && FreeConn(s, c, key) && c in EntryOf(s, key).clients && CallOk(s.calls[q])
    ensures
      var steps := [ChooseReserve(q, {}, c)] + Exchange(q, c);
      IsRun(s, steps)
      && var t := After(s, steps);
         var call := s.calls[q];
         t.conns == s.conns && EntryOf(t, key) == EntryOf(s, key) && q in t.calls
         && t.calls[q].phase == Finished(true) && t.calls[q].dials == call.dials && t.calls[q].attempts == call.attempts + [c]
  {
    var call, e := s.calls[q], EntryOf(s, key);
    var first := ChooseReserve(q, {}, c);
    NoOutcomeYet(call);
    FreeReserved(s, q, c, key);
    hide After, IsRun, Exchange, CallOk, Enabled, Apply, Ready, FreeConn;
    ExchangeServes(s, q, call.(phase := Reserved(c, true)), c, key, e);
    OneStep(s, first);
    RunsInTurn(s, [first], Exchange(q, c));
  }

  // Dialling and registering, when nothing fails.
  function Dial(q: CallId, c: ConnId): seq<Step> {
    [ChooseConnect(q, {}), TakeLock(q), ChooseConnect(q, {}), ConnectWorks(q, c), TryPermit(q), Register(q)]
  }

  // A state in which the call and the entry are as given.
  function Before(s: System, q: CallId, call: Call, e: Entry): System {
    System(s.calls[q := call], s.conns, s.entries[call.key := e])
  }

  lemma BeforeAgain(s: System, q: CallId, call: Call, e: Entry, call2: Call, e2: Entry)
    requires call2.key == call.key
    ensures
      var t := Before(s, q, call, e);
      t.calls[q] == call && EntryOf(t, call.key) == e
      && SetCall(SetEntry(t, call.key, e2), q, call2) == Before(s, q, call2, e2)
  {
    var t := Before(s, q, call, e);
    assert t.calls[q := call2] == s.calls[q := call2] && t.entries[call.key := e2] == s.entries[call.key := e2];
  }

  lemma ChooseConnectStep(s: System, q: CallId, call: Call, e: Entry)
    requires MayChoose(call.phase) && |e.clients| < MAX_CONNECTIONS_PER_KEY
    ensures
      var t := Before(s, q, call, e);
      Enabled(t, ChooseConnect(q, {}))
      && Apply(t, ChooseConnect(q, {}))
         == Before(s, q, if call.phase.AtStart? then call.(phase := WantsLock)
                         else call.(phase := Connecting, dials := call.dials + 1), e)
  {
    MinusNothing(e.clients);
    var next := if call.phase.AtStart? then call.(phase := WantsLock) else call.(phase := Connecting, dials := call.dials + 1);
    BeforeAgain(s, q, call, e, next, e);
    assert e.(clients := e.clients) == e;
  }

  lemma FirstChoice(s: System, q: CallId, key: PoolKey)
    requires Ready(s, q, key) && |EntryOf(s, key).clients| < MAX_CONNECTIONS_PER_KEY
    ensures Enabled(s, ChooseConnect(q, {}))
    ensures Apply(s, ChooseConnect(q, {})) == Before(s, q, s.calls[q].(phase := WantsLock), EntryOf(s, key))
  {
    var e := EntryOf(s, key);
    MinusNothing(e.clients);
    assert e.(clients := e.clients) == e;
  }

  lemma TakeLockStep(s: System, q: CallId, call: Call, e: Entry)
    requires call.phase.WantsLock? && e.lock.None?
    ensures
      var t := Before(s, q, call, e);
      Enabled(t, TakeLock(q)) && Apply(t, TakeLock(q)) == Before(s, q, call.(phase := HasLock), e.(lock := Some(q)))
  {
    BeforeAgain(s, q, call, e, call.(phase := HasLock), e.(lock := Some(q)));
  }

  lemma ConnectStep(s: System, q: CallId, call: Call, c: ConnId, e: Entry)
    requires call.phase.Connecting? && c !in s.conns
    ensures
      var t := Before(s, q, call, e);
      Enabled(t, ConnectWorks(q, c))
      && Apply(t, ConnectWorks(q, c)) == At(s, q, call.(phase := HasClient(c)), c, Conn(call.key, 1, false, [], Idle), e)
  {
    BeforeAgain(s, q, call, e, call.(phase := HasClient(c)), e);
    var t := Before(s, q, call, e);
    assert t.calls[q := call.(phase := HasClient(c))] == s.calls[q := call.(phase := HasClient(c))];
  }

  lemma PermitStep(s: System, q: CallId, call: Call, c: ConnId, e: Entry)
    requires call.phase == HasClient(c)
    ensures
      var t := At(s, q, call, c, Conn(call.key, 1, false, [], Idle), e);
      Enabled(t, TryPermit(q))
      && Apply(t, TryPermit(q)) == At(s, q, call.(phase := HasPermit(c)), c, Conn(call.key, 0, false, [], Idle), e)
  {
    var taken := Conn(call.key, 0, false, [], Idle);
    AtAgain(s, q, call, c, taken.(available := 1), e, call, taken, e);
    AtAgain(s, q, call, c, taken, e, call.(phase := HasPermit(c)), taken, e);
  }

  lemma RegisterStep(s: System, q: CallId, call: Call, c: ConnId, conn: Conn, e: Entry)
    requires call.phase == HasPermit(c)
    ensures
      var t := At(s, q, call, c, conn, e);
      Enabled(t, Register(q))
      && Apply(t, Register(q))
         == At(s, q, call.(phase := Reserved(c, false)), c, conn, Entry(e.clients + [c], e.next, None))
  {
    var f := Entry(e.clients + [c], e.next, None);
    AtAgain(s, q, call, c, conn, e, call, conn, f);
    AtAgain(s, q, call, c, conn, f, call.(phase := Reserved(c, false)), conn, f);
  }

  lemma DialWorks(s: System, q: CallId, c: ConnId, key: PoolKey)
    requires Ready(s, q, key) && c !in s.conns
    requires |EntryOf(s, key).clients| < MAX_CONNECTIONS_PER_KEY && EntryOf(s, key).lock.None?
    ensures
      var call, e := s.calls[q], EntryOf(s, key);
      IsRun(s, Dial(q, c))
      && After(s, Dial(q, c))
         == At(s, q, call.(phase := Reserved(c, false), dials := call.dials + 1), c, Conn(key, 0, false, [], Idle),
               Entry(e.clients + [c], e.next, None))
  {
    hide Enabled, Apply, At, Before, IsRun, After;
    var call, e := s.calls[q], EntryOf(s, key);
    var locked := e.(lock := Some(q));
    var dialled := call.(dials := call.dials + 1);
    var conn := Conn(key, 1, false, [], Idle);
    FirstChoice(s, q, key);
    TakeLockStep(s, q, call.(phase := WantsLock), e);
    ChooseConnectStep(s, q, call.(phase := HasLock), locked);
    ConnectStep(s, q, dialled.(phase := Connecting), c, locked);
    PermitStep(s, q, dialled.(phase := HasClient(c)), c, locked);
    RegisterStep(s, q, dialled.(phase := HasPermit(c)), c, conn.(available := 0), locked);
    RunOfSix(s, Dial(q, c), Before(s, q, call.(phase := WantsLock), e),
             Before(s, q, call.(phase := HasLock), locked), Before(s, q, dialled.(phase := Connecting), locked),
             At(s, q, dialled.(phase := HasClient(c)), c, conn, locked),
             At(s, q, dialled.(phase := HasPermit(c)), c, conn.(available := 0), locked),
             At(s, q, dialled.(phase := Reserved(c, false)), c, conn.(available := 0), Entry(e.clients + [c], e.next, None)));
  }

  // A call that finds room and no lock held dials, is served over the new connection, and
  // leaves it free in the list for those that come after it.
  lemma FreshIsKept(s: System, q: CallId, c: ConnId, key: PoolKey)
    requires Ready(s, q, key) && c !in s.conns && CallOk(s.calls[q])
    requires |EntryOf(s, key).clients| < MAX_CONNECTIONS_PER_KEY && EntryOf(s, key).lock.None?
    ensures
      var steps := Dial(q, c) + Exchange(q, c);
      IsRun(s, steps)
      && var t := After(s, steps);
         FreeConn(t, c, key) && EntryOf(t, key) == EntryOf(s, key).(clients := EntryOf(s, key).clients + [c])
         && q in t.calls && t.calls[q].phase == Finished(true) && t.calls[q].dials == s.calls[q].dials + 1
  {
    hide After, IsRun, Exchange, Dial, CallOk;
    var call, e := s.calls[q], EntryOf(s, key);
    DialWorks(s, q, c, key);
    NoOutcomeYet(call);
    ExchangeServes(s, q, call.(phase := Reserved(c, false), dials := call.dials + 1), c, key,
                   Entry(e.clients + [c], e.next, None));
    RunsInTurn(s, Dial(q, c), Exchange(q, c));
  }

  // A reused client turns out to be closed before the command is queued, or hands it back
  // unsent: the call takes it out of the list and starts over, having lost nothing.
  lemma StaleIsRetried(s: System, q: CallId, c: ConnId)
    requires q in s.calls && c in s.conns
    requires
      var p := s.calls[q].phase;
      (p == Reserved(c, true) && ChannelClosed(s.conns[c].worker)) || p == Sent(c, true, Some(NotSent))
    ensures
      var call := s.calls[q];
      var steps := [if call.phase.Reserved? then SendCommand(q) else Receive(q), Remove(q)];
      IsRun(s, steps)
      && var t := After(s, steps);
         q in t.calls && t.calls[q] == call.(phase := AtStart) && c !in EntryOf(t, call.key).clients
         && (call.phase.Reserved? ==> c in t.conns && t.conns[c].available == s.conns[c].available + 1)
  {
    var first := if s.calls[q].phase.Reserved? then SendCommand(q) else Receive(q);
    var t1 := Apply(s, first);
    assert t1.calls[q] == s.calls[q].(phase := Removing(c, true, false));
    OneStep(s, first);
    OneStep(t1, Remove(q));
    RunsInTurn(s, [first], [Remove(q)]);
    assert [first] + [Remove(q)] == [first, Remove(q)];
  }
}
