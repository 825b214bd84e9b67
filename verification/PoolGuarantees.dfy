// The guarantees of the client pool, for every interleaving of its callers and
// connection workers.
module PoolGuarantees {
  import opened ClientPool
  import opened ClientPoolSafety
  import opened WorkerSteps
  import opened CallerSteps

  lemma StepKeeps(s: System, step: Step)
    requires Inv(s) && Enabled(s, step)
    ensures Inv(Apply(s, step))
  {
    hide Inv, Enabled, Apply;
    if IsMove(step) {
      KeepMove(s, step);
    } else if IsReply(step) {
      KeepReply(s, step);
    } else {
      match step
      case Begin(_, _) => KeepBegin(s, step);
      case ChooseReserve(_, _, _) => KeepChooseReserve(s, step);
      case ChooseConnect(_, _) => KeepChooseConnect(s, step);
      case ChooseWait(_, _) => KeepChooseWait(s, step);
      case TakeLock(_) => KeepTakeLock(s, step);
      case ConnectFails(_) => KeepConnectFails(s, step);
      case ConnectWorks(_, _) => KeepConnectWorks(s, step);
      case TryPermit(_) => KeepTryPermit(s, step);
      case Register(_) => KeepRegister(s, step);
      case GetPermit(_) => KeepGetPermit(s, step);
      case SendCommand(_) => KeepSendCommand(s, step);
      case Receive(_) => KeepReceive(s, step);
      case Remove(_) => KeepRemove(s, step);
      case Cancel(_) => KeepCancel(s, step);
      case BeginWrite(_) => KeepBeginWrite(s, step);
    }
  }

  lemma {:induction false} RunKeeps(s: System, steps: seq<Step>)
    requires Inv(s) && IsRun(s, steps)
    ensures Inv(After(s, steps))
    decreases |steps|
  {
    hide Inv, Enabled, Apply;
    if steps != [] {
      StepKeeps(s, steps[0]);
      RunKeeps(Apply(s, steps[0]), steps[1..]);
    }
  }

  lemma ReachableInv(steps: seq<Step>)
    requires IsRun(INITIAL, steps)
    ensures Inv(After(INITIAL, steps))
  {
    hide Enabled, Apply;
    RunKeeps(INITIAL, steps);
  }

  // ----- at most once --------------------------------------------------------

  // Writing a call's request is begun at most once over all its retries; an attempt
  // has at most one outcome; it is told NotSent only if its request was not begun to
  // be written; and a call that is to try again has written nothing at all.
  lemma AtMostOnce(steps: seq<Step>, q: CallId)
    requires IsRun(INITIAL, steps) && q in After(INITIAL, steps).calls
    ensures
      var call := After(INITIAL, steps).calls[q];
      |call.writes| <= 1
      && (forall k :: k in call.outcomes ==> k < |call.attempts| && |call.outcomes[k]| == 1)
      && (forall k :: k in call.outcomes && call.outcomes[k] == [NotSent] ==> k !in call.writes)
      && (forall k :: 0 <= k < |call.attempts| - 1 ==> k in call.outcomes && call.outcomes[k] == [NotSent] && k !in call.writes)
      && (call.phase.AtStart? ==> call.writes == [])
  {
    hide After, IsRun;
    ReachableInv(steps);
    assert CallAt(After(INITIAL, steps), q);
  }

  // A queued command is queued, being worked on unanswered, or answered once; never
  // two of these and never none.
  lemma CommandAccounted(steps: seq<Step>, q: CallId, k: nat)
    requires IsRun(INITIAL, steps) && q in After(INITIAL, steps).calls && k < |After(INITIAL, steps).calls[q].attempts|
    ensures
      var s := After(INITIAL, steps);
      var call := s.calls[q];
      var c := call.attempts[k];
      c in s.conns
      && (k in call.outcomes <==> !Pending(s.conns[c], Command(q, k)))
      && !(Command(q, k) in s.conns[c].queue && InWorker(s.conns[c].worker, Command(q, k)))
      && forall d :: d in s.conns && d != c ==> !Pending(s.conns[d], Command(q, k))
  {
    hide After, IsRun, Pending, InWorker, Pooled, PooledFor, PhaseLinked, LockOk;
    ReachableInv(steps);
    var s := After(INITIAL, steps);
    var call := s.calls[q];
    InvCall(s, q);
    var c := call.attempts[k];
    InvLink(s, q, c);
    InvConn(s, c);
    NotTwice(s.conns[c], Command(q, k));
    forall d | d in s.conns && d != c ensures !Pending(s.conns[d], Command(q, k)) {
      InvLink(s, q, d);
    }
  }

  lemma NotTwice(conn: Conn, cmd: Command)
    requires ConnOk(conn)
    ensures !(cmd in conn.queue && InWorker(conn.worker, cmd))
  {
  }

  // Once a worker is gone, every command it was ever sent has its one outcome.
  lemma AllAnswered(steps: seq<Step>, q: CallId, k: nat)
    requires IsRun(INITIAL, steps) && q in After(INITIAL, steps).calls && k < |After(INITIAL, steps).calls[q].attempts|
    requires
      var s := After(INITIAL, steps);
      var c := s.calls[q].attempts[k];
      c in s.conns && s.conns[c].worker.Gone?
    ensures
      var call := After(INITIAL, steps).calls[q];
      k in call.outcomes && |call.outcomes[k]| == 1
  {
    hide After, IsRun;
    ReachableInv(steps);
    CommandAccounted(steps, q, k);
    var s := After(INITIAL, steps);
    InvCall(s, q);
    InvConn(s, s.calls[q].attempts[k]);
  }

  // ----- the pool ------------------------------------------------------------

  // The call's request is on the connection: from the reservation of the permit to
  // the end of the response body.
  predicate Occupies(s: System, q: CallId, c: ConnId)
    requires q in s.calls && c in s.conns
  {
    (HoldsPermit(s.calls[q].phase) && s.calls[q].phase.conn == c)
    || (s.conns[c].queue != [] && s.conns[c].queue[0].call == q)
    || (Busy(s.conns[c].worker) && s.conns[c].worker.cmd.call == q)
  }

  // A key has at most five pooled connections, all different; a connection carries
  // at most one request, its command queue holds at most one; a call dials at most
  // once.
  lemma PoolBounds(steps: seq<Step>)
    requires IsRun(INITIAL, steps)
    ensures
      var s := After(INITIAL, steps);
      (forall key :: |EntryOf(s, key).clients| <= MAX_CONNECTIONS_PER_KEY && Distinct(EntryOf(s, key).clients))
      && (forall c :: c in s.conns ==> |s.conns[c].queue| <= 1)
      && (forall q, other, c ::
            q in s.calls && other in s.calls && c in s.conns && Occupies(s, q, c) && Occupies(s, other, c) ==> q == other)
      && (forall q :: q in s.calls ==> s.calls[q].dials <= 1)
  {
    hide After, IsRun, Occupies, CallOk, LockOk;
    ReachableInv(steps);
    var s := After(INITIAL, steps);
    forall key ensures |EntryOf(s, key).clients| <= MAX_CONNECTIONS_PER_KEY && Distinct(EntryOf(s, key).clients) {
      InvEntry(s, key);
    }
    forall c | c in s.conns ensures |s.conns[c].queue| <= 1 {
      InvConn(s, c);
    }
    forall q, other, c | q in s.calls && other in s.calls && c in s.conns && Occupies(s, q, c) && Occupies(s, other, c)
      ensures q == other
    {
      OneOccupant(s, q, other, c);
    }
    forall q | q in s.calls ensures s.calls[q].dials <= 1 {
      InvCall(s, q);
      DialsOnce(s.calls[q]);
    }
  }

  lemma DialsOnce(call: Call)
    requires CallOk(call)
    ensures call.dials <= 1
  {
  }

  lemma OneOccupant(s: System, q: CallId, other: CallId, c: ConnId)
    requires Inv(s) && q in s.calls && other in s.calls && c in s.conns && Occupies(s, q, c) && Occupies(s, other, c)
    ensures q == other
  {
    hide Pooled, PooledFor, CallOk, LockOk, HistoryLinked;
    InvConn(s, c);
    InvLink(s, q, c);
    InvLink(s, other, c);
    InvApart(s, q, other);
  }

  // Connections of a key that serve a request, in any phase of it: at most five,
  // counting also those no longer reachable through the pool.
  ghost function Serving(s: System, key: PoolKey): set<ConnId> {
    set c | c in s.conns && s.conns[c].key == key && InUse(s.conns[c]) && !OutOfLoop(s.conns[c].worker)
  }

  lemma AtMostFiveServing(steps: seq<Step>, key: PoolKey)
    requires IsRun(INITIAL, steps)
    ensures |Serving(After(INITIAL, steps), key)| <= MAX_CONNECTIONS_PER_KEY
  {
    hide After, IsRun, ConnOk, InUse, OutOfLoop;
    ReachableInv(steps);
    var s := After(INITIAL, steps);
    var clients := EntryOf(s, key).clients;
    InvEntry(s, key);
    forall c | c in Serving(s, key) ensures c in clients {
      InvConn(s, c);
    }
    SetInSeq(Serving(s, key), clients);
  }

  lemma {:induction false} SetInSeq(a: set<ConnId>, list: seq<ConnId>)
    requires forall c :: c in a ==> c in list
    ensures |a| <= |list|
  {
    if list == [] {
      assert a == {};
    } else {
      SetInSeq(a - {list[0]}, list[1..]);
    }
  }

  // A caller that holds a permit never waits for room in the command channel, and
  // no step of a worker is ever blocked by its command having no owner.
  lemma NeverBlocked(steps: seq<Step>, q: CallId)
    requires IsRun(INITIAL, steps) && q in After(INITIAL, steps).calls && After(INITIAL, steps).calls[q].phase.Reserved?
    ensures Enabled(After(INITIAL, steps), SendCommand(q))
  {
    hide After, IsRun, CallOk, LockOk, HistoryLinked, Pooled, PooledFor;
    ReachableInv(steps);
    var s := After(INITIAL, steps);
    InvCall(s, q);
    InvLink(s, q, s.calls[q].phase.conn);
  }

  lemma AnswersHaveOwners(steps: seq<Step>, c: ConnId)
    requires IsRun(INITIAL, steps) && c in After(INITIAL, steps).conns
    ensures
      var s := After(INITIAL, steps);
      var conn := s.conns[c];
      (Busy(conn.worker) ==> conn.worker.cmd.call in s.calls) && (conn.queue != [] ==> conn.queue[0].call in s.calls)
  {
    hide After, IsRun, Pooled, ConnOk;
    ReachableInv(steps);
    var s := After(INITIAL, steps);
    InvConn(s, c);
    var conn := s.conns[c];
    assert Busy(conn.worker) ==> InWorker(conn.worker, conn.worker.cmd);
  }

  // ----- permits are conserved -----------------------------------------------

  ghost predicate HeldBy(s: System, q: CallId, c: ConnId) {
    q in s.calls && HoldsPermit(s.calls[q].phase) && s.calls[q].phase.conn == c
  }

  // A permit that is out is in a caller's hands or with a command.
  ghost predicate PermitAccounted(s: System, c: ConnId)
    requires c in s.conns
  {
    s.conns[c].available == 0 ==> InUse(s.conns[c]) || exists q :: HeldBy(s, q, c)
  }

  ghost predicate PermitsAccounted(s: System) {
    forall c :: c in s.conns ==> PermitAccounted(s, c)
  }

  lemma WorkerPermits(s: System, step: Step, c: ConnId)
    requires Inv(s) && PermitsAccounted(s) && IsWorkerStep(step) && Enabled(s, step) && c in s.conns
    ensures c in Apply(s, step).conns && PermitAccounted(Apply(s, step), c)
  {
    hide Inv, PermitsAccounted;
    OneAccounted(s, c);
    var t := Apply(s, step);
    WorkerHolders(s, step);
    forall q | HeldBy(s, q, c) ensures HeldBy(t, q, c) {
    }
  }

  // Workers do not touch the permits in callers' hands.
  lemma WorkerHolders(s: System, step: Step)
    requires IsWorkerStep(step) && Enabled(s, step)
    ensures forall q, c :: HeldBy(s, q, c) ==> HeldBy(Apply(s, step), q, c)
  {
    hide Moved, MoveEnabled, Replied, ReplyEnabled, ReplyCommand;
  }

  // A caller's step leaves every other call alone.
  lemma CallerOthers(s: System, step: Step, x: CallId)
    requires !IsWorkerStep(step) && Enabled(s, step) && x in s.calls && x != step.call
    ensures x in Apply(s, step).calls && Apply(s, step).calls[x] == s.calls[x]
  {
    hide Kept, AllClosed, EntryOf, Unlocked;
  }

  // A caller that takes a permit has it, and one that lets go gives it back or
  // passes it on with its command.
  lemma CallerOwn(s: System, step: Step, c: ConnId)
    requires !IsWorkerStep(step) && Enabled(s, step) && c in s.conns
    ensures
      var t := Apply(s, step);
      c in t.conns && (InUse(s.conns[c]) ==> InUse(t.conns[c]))
      && (t.conns[c].available < s.conns[c].available ==> HeldBy(t, step.call, c))
      && (HeldBy(s, step.call, c) ==> HeldBy(t, step.call, c) || InUse(t.conns[c]) || t.conns[c].available > 0)
  {
    hide Kept, AllClosed, EntryOf, Unlocked;
  }

  lemma CallerPermits(s: System, step: Step, c: ConnId)
    requires PermitsAccounted(s) && !IsWorkerStep(step) && Enabled(s, step) && c in Apply(s, step).conns
    ensures PermitAccounted(Apply(s, step), c)
  {
    hide Apply, Enabled, PermitsAccounted, InUse;
    var q := step.call;
    var t := Apply(s, step);
    if c in s.conns {
      OneAccounted(s, c);
      CallerOwn(s, step, c);
      forall x | HeldBy(s, x, c) && x != q ensures HeldBy(t, x, c) {
        CallerOthers(s, step, x);
      }
    } else {
      NewConnFree(s, step, c);
    }
  }

  lemma NewConnFree(s: System, step: Step, c: ConnId)
    requires !IsWorkerStep(step) && Enabled(s, step) && c in Apply(s, step).conns && c !in s.conns
    ensures Apply(s, step).conns[c].available == 1
  {
    hide Kept, AllClosed, EntryOf, Unlocked;
  }

  lemma OneAccounted(s: System, c: ConnId)
    requires PermitsAccounted(s) && c in s.conns
    ensures PermitAccounted(s, c)
  {
  }

  lemma {:induction false} RunAccounts(s: System, steps: seq<Step>)
    requires Inv(s) && PermitsAccounted(s) && IsRun(s, steps)
    ensures PermitsAccounted(After(s, steps))
    decreases |steps|
  {
    hide Inv, Enabled, Apply, PermitAccounted;
    if steps != [] {
      var t := Apply(s, steps[0]);
      forall c | c in t.conns ensures PermitAccounted(t, c) {
        if IsWorkerStep(steps[0]) {
          WorkerConns(s, steps[0]);
          WorkerPermits(s, steps[0], c);
        } else {
          CallerPermits(s, steps[0], c);
        }
      }
      StepKeeps(s, steps[0]);
      RunAccounts(t, steps[1..]);
    }
  }

  lemma WorkerConns(s: System, step: Step)
    requires IsWorkerStep(step) && Enabled(s, step)
    ensures Apply(s, step).conns.Keys == s.conns.Keys
  {
  }

  // No permit is ever lost: a connection that carries no request, and whose permit
  // no caller has reserved, has its permit free.
  lemma PermitsConserved(steps: seq<Step>, c: ConnId)
    requires IsRun(INITIAL, steps) && c in After(INITIAL, steps).conns
    requires forall q :: q in After(INITIAL, steps).calls ==> !Occupies(After(INITIAL, steps), q, c)
    ensures After(INITIAL, steps).conns[c].available == 1
  {
    hide After, IsRun;
    RunAccounts(INITIAL, steps);
    ReachableInv(steps);
    AnswersHaveOwners(steps, c);
    var s := After(INITIAL, steps);
    assert ConnAt(s, c) && PermitAccounted(s, c);
    forall q ensures !HeldBy(s, q, c) {
      assert q in s.calls ==> !Occupies(s, q, c);
    }
  }
}
