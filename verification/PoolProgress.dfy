// No call of the client pool is ever stuck: until it has ended, something that brings it
// on can happen without a failure, a cancellation or a new call.
module PoolProgress {
  import opened ClientPool
  import opened ClientPoolSafety
  import opened PoolGuarantees

  predicate Helpful(step: Step) {
    !step.Begin? && !step.Cancel? && !step.ConnectFails? && !step.IdleEnds? && !step.Refuse? && !step.FailExchange?
    && !step.FailBody?
  }

  // A worker that is not idle, and not gone, can move.
  lemma WorkerMoves(s: System, c: ConnId) returns (step: Step)
    requires Inv(s) && c in s.conns && !s.conns[c].worker.Gone? && !(s.conns[c].worker.Idle? && s.conns[c].queue == [])
    ensures Helpful(step) && Enabled(s, step)
  {
    hide Inv, Pooled, ConnOk, Helpful, Enabled, EntryOf;
    InvConn(s, c);
    var conn := s.conns[c];
    assert Busy(conn.worker) ==> InWorker(conn.worker, conn.worker.cmd);
    step := WorkerStep(s, c);
  }

  lemma WorkerStep(s: System, c: ConnId) returns (step: Step)
    requires c in s.conns && !s.conns[c].worker.Gone? && !(s.conns[c].worker.Idle? && s.conns[c].queue == [])
    requires Busy(s.conns[c].worker) ==> s.conns[c].worker.cmd.call in s.calls
    requires s.conns[c].queue != [] ==> s.conns[c].queue[0].call in s.calls
    ensures Helpful(step) && Enabled(s, step)
  {
    var conn := s.conns[c];
    step := match conn.worker
            case Idle => Take(c)
            case Taken(_) => BeginWrite(c)
            case Writing(_) => Answer(c, false)
            case Answered(_) => FinishBody(c, true)
            case Leaving(_) => DropPermit(c)
            case Left => CloseChannel(c)
            case _ => if !conn.shut then CloseSemaphore(c) else if conn.queue != [] then Drain(c) else Stop(c);
  }

  lemma {:induction false} Unknown(known: set<ConnId>) returns (c: ConnId)
    ensures forall d :: d in known ==> d < c
  {
    if known == {} {
      c := 0;
    } else {
      var d :| d in known;
      var e := Unknown(known - {d});
      c := if d < e then e else d + 1;
      assert forall x :: x in known ==> x == d || x in known - {d};
    }
  }

  // A call that is neither over nor waiting for somebody else can move itself.
  lemma CallMoves(s: System, q: CallId) returns (step: Step)
    requires Inv(s) && q in s.calls
    requires
      var p := s.calls[q].phase;
      !p.Finished? && !p.Cancelled? && !p.WantsLock? && !p.Waiting? && (p.Sent? ==> p.mail.Some?)
    ensures Helpful(step) && Enabled(s, step)
  {
    hide Inv, CallOk, LockOk, HistoryLinked, PooledFor, Helpful, Enabled, EntryOf;
    InvCall(s, q);
    var p := s.calls[q].phase;
    if p.Reserved? {
      InvLink(s, q, p.conn);
    }
    step := CallStep(s, q);
  }

  lemma CallStep(s: System, q: CallId) returns (step: Step)
    requires q in s.calls
    requires
      var p := s.calls[q].phase;
      !p.Finished? && !p.Cancelled? && !p.WantsLock? && !p.Waiting? && (p.Sent? ==> p.mail.Some?)
      && (PhaseConn(p).Some? ==> PhaseConn(p).value in s.conns) && (p.Reserved? ==> s.conns[p.conn].queue == [])
    ensures Helpful(step) && Enabled(s, step)
  {
    hide Kept;
    var p := s.calls[q].phase;
    if p.AtStart? || p.HasLock? {
      step := if |Kept(s, q, {})| < MAX_CONNECTIONS_PER_KEY then ChooseConnect(q, {}) else ChooseWait(q, {});
    } else {
      var unused := Unknown(s.conns.Keys);
      step := match p
              case Connecting => ConnectWorks(q, unused)
              case HasClient(_) => TryPermit(q)
              case HasPermit(_) => Register(q)
              case Reserved(_, _) => SendCommand(q)
              case Sent(_, _, _) => Receive(q)
              case _ => Remove(q);
    }
  }

  // Who holds the lock of a key is on its way.
  lemma LockMoves(s: System, q: CallId) returns (step: Step)
    requires Inv(s) && q in s.calls && s.calls[q].phase.WantsLock?
    ensures Helpful(step) && Enabled(s, step)
  {
    hide CallOk, Helpful, EntryOk;
    var key := s.calls[q].key;
    InvEntry(s, key);
    match EntryOf(s, key).lock
    case None => step := TakeLock(q); assert Helpful(TakeLock(q)) by { HelpfulLock(q); }
    case Some(holder) =>
      InvCall(s, holder);
      step := CallMoves(s, holder);
  }

  lemma HelpfulLock(q: CallId)
    ensures Helpful(TakeLock(q)) && Helpful(GetPermit(q))
  {
  }

  // A permit that is out comes back: its holder or the worker is on its way.
  lemma PermitMoves(s: System, q: CallId) returns (step: Step)
    requires Inv(s) && PermitsAccounted(s) && q in s.calls && s.calls[q].phase.Waiting?
    ensures Helpful(step) && Enabled(s, step)
  {
    hide CallOk, LockOk, Helpful, Pooled;
    InvCall(s, q);
    var c := s.calls[q].phase.conn;
    InvConn(s, c);
    OneAccounted(s, c);
    if s.conns[c].shut || s.conns[c].available > 0 {
      step := GetPermit(q);
      HelpfulLock(q);
    } else if InUse(s.conns[c]) {
      step := WorkerMoves(s, c);
    } else {
      var holder :| HeldBy(s, holder, c);
      step := CallMoves(s, holder);
    }
  }

  // A command that has no answer yet is with a worker that can move.
  lemma AnswerMoves(s: System, q: CallId) returns (step: Step)
    requires Inv(s) && q in s.calls && s.calls[q].phase.Sent? && s.calls[q].phase.mail.None?
    ensures Helpful(step) && Enabled(s, step)
  {
    hide LockOk, Helpful, Pooled, PooledFor;
    InvCall(s, q);
    var c := s.calls[q].phase.conn;
    InvConn(s, c);
    InvLink(s, q, c);
    assert Pending(s.conns[c], Command(q, Last(s.calls[q])));
    step := WorkerMoves(s, c);
  }

  // Until a call has ended something that brings it on can happen.
  lemma NeverStuck(steps: seq<Step>, q: CallId) returns (step: Step)
    requires IsRun(INITIAL, steps) && q in After(INITIAL, steps).calls
    requires !After(INITIAL, steps).calls[q].phase.Finished? && !After(INITIAL, steps).calls[q].phase.Cancelled?
    ensures Helpful(step) && Enabled(After(INITIAL, steps), step)
  {
    hide After, IsRun, Inv, Enabled, Helpful, PermitsAccounted;
    ReachableInv(steps);
    AlwaysAccounted(steps);
    var s := After(INITIAL, steps);
    var p := s.calls[q].phase;
    if p.WantsLock? {
      step := LockMoves(s, q);
    } else if p.Waiting? {
      step := PermitMoves(s, q);
    } else if p.Sent? && p.mail.None? {
      step := AnswerMoves(s, q);
    } else {
      step := CallMoves(s, q);
    }
  }

  lemma AlwaysAccounted(steps: seq<Step>)
    requires IsRun(INITIAL, steps)
    ensures PermitsAccounted(After(INITIAL, steps))
  {
    hide After, IsRun;
    RunAccounts(INITIAL, steps);
  }
}
