// Every step of a connection worker keeps the invariant of the pool: taking a command,
// beginning to write its request, answering it, finishing a response body, leaving the
// loop, draining the queue, and ending. One lemma per step, over the parts of the
// invariant that the step touches.
module WorkerSteps {
  import opened Results
  import opened ClientPool
  import opened ClientPoolSafety

  // ----- worker steps --------------------------------------------------------

  lemma MovedConnOk(conn: Conn, step: Step)
    requires ConnOk(conn) && MoveEnabled(conn, step)
    ensures ConnOk(Moved(conn, step)) && Moved(conn, step).key == conn.key
    ensures OutOfLoop(conn.worker) ==> OutOfLoop(Moved(conn, step).worker)
    ensures InUse(Moved(conn, step)) && !OutOfLoop(Moved(conn, step).worker) ==> InUse(conn) && !OutOfLoop(conn.worker)
    ensures forall cmd :: cmd in Moved(conn, step).queue || InWorker(Moved(conn, step).worker, cmd)
                      ==> cmd in conn.queue || InWorker(conn.worker, cmd)
  {
  }

  lemma MovedPending(conn: Conn, step: Step, cmd: Command)
    requires ConnOk(conn) && MoveEnabled(conn, step)
    ensures Pending(Moved(conn, step), cmd) <==> Pending(conn, cmd)
    ensures cmd in Moved(conn, step).queue || Moved(conn, step).worker == Taken(cmd) ==>
            cmd in conn.queue || conn.worker == Taken(cmd)
  {
    if |conn.queue| == 1 {
      assert conn.queue == [conn.queue[0]];
    }
  }

  lemma MovedLinked(q: CallId, call: Call, c: ConnId, conn: Conn, step: Step)
    requires ConnOk(conn) && MoveEnabled(conn, step) && Linked(q, call, c, conn)
    ensures Linked(q, call, c, Moved(conn, step))
  {
    hide Pending;
    forall k: nat ensures Pending(Moved(conn, step), Command(q, k)) <==> Pending(conn, Command(q, k)) {
      MovedPending(conn, step, Command(q, k));
    }
    forall k: nat
      ensures Command(q, k) in Moved(conn, step).queue || Moved(conn, step).worker == Taken(Command(q, k)) ==>
              Command(q, k) in conn.queue || conn.worker == Taken(Command(q, k))
    {
      MovedPending(conn, step, Command(q, k));
    }
    MovedConnOk(conn, step);
  }

  lemma MoveEffect(s: System, step: Step)
    requires IsMove(step) && Enabled(s, step)
    ensures step.conn in s.conns && MoveEnabled(s.conns[step.conn], step)
    ensures Apply(s, step) == SetConn(s, step.conn, Moved(s.conns[step.conn], step))
  {
    hide Moved, MoveEnabled;
  }

  lemma ReplyEffect(s: System, step: Step)
    requires IsReply(step) && Enabled(s, step)
    ensures step.conn in s.conns && ReplyEnabled(s.conns[step.conn], step)
    ensures
      var cmd := ReplyCommand(s.conns[step.conn], step);
      cmd.call in s.calls
      && Apply(s, step) == SetCall(SetConn(s, step.conn, Replied(s.conns[step.conn], step)), cmd.call,
                                   Told(s.calls[cmd.call], cmd.attempt, ReplyOutcome(step)))
  {
    hide Replied, ReplyEnabled, ReplyCommand, Told, ReplyOutcome;
  }

  lemma MovedPooled(c: ConnId, conn: Conn, step: Step, e: Entry)
    requires ConnOk(conn) && MoveEnabled(conn, step) && Pooled(c, conn, e)
    ensures Pooled(c, Moved(conn, step), e)
  {
    hide Moved, ConnOk, InUse, OutOfLoop;
    MovedConnOk(conn, step);
  }

  lemma KeepMove(s: System, step: Step)
    requires Inv(s) && IsMove(step) && Enabled(s, step)
    ensures Inv(Apply(s, step))
  {
    hide Inv, Linked, ConnOk, Moved, InUse, OutOfLoop, MoveEnabled, InWorker, CallAt, EntryOk, Apart, CallOk, PooledFor, LockOk,
         EntryOf, PhaseConn, Apply, Enabled, Pooled;
    MoveEffect(s, step);
    EntriesSame(s, Apply(s, step));
    var c := step.conn;
    var conn := s.conns[c];
    var t := Apply(s, step);
    InvConn(s, c);
    InvEntry(s, conn.key);
    MovedConnOk(conn, step);
    forall x | x in t.calls ensures Linked(x, t.calls[x], c, t.conns[c]) {
      InvLink(s, x, c);
      MovedLinked(x, s.calls[x], c, conn, step);
    }
    MovedPooled(c, conn, step, EntryOf(s, conn.key));
    Rebuild(s, t, None, Some(c), conn.key);
  }

  lemma RepliedConnOk(conn: Conn, step: Step)
    requires ConnOk(conn) && ReplyEnabled(conn, step)
    ensures ConnOk(Replied(conn, step)) && Replied(conn, step).key == conn.key
    ensures OutOfLoop(conn.worker) ==> OutOfLoop(Replied(conn, step).worker)
    ensures !ReplyOutcome(step).Response? ==> OutOfLoop(Replied(conn, step).worker)
    ensures InUse(Replied(conn, step)) && !OutOfLoop(Replied(conn, step).worker) ==> InUse(conn) && !OutOfLoop(conn.worker)
    ensures forall cmd :: cmd in Replied(conn, step).queue || InWorker(Replied(conn, step).worker, cmd)
                      ==> cmd in conn.queue || InWorker(conn.worker, cmd)
  {
  }

  lemma RepliedPending(conn: Conn, step: Step, cmd: Command)
    requires ConnOk(conn) && ReplyEnabled(conn, step)
    ensures Pending(conn, ReplyCommand(conn, step))
    ensures Pending(Replied(conn, step), cmd) <==> Pending(conn, cmd) && cmd != ReplyCommand(conn, step)
    ensures cmd in Replied(conn, step).queue || Replied(conn, step).worker == Taken(cmd) ==>
            cmd in conn.queue || conn.worker == Taken(cmd)
    ensures step.Drain? ==> ReplyCommand(conn, step) in conn.queue
  {
    if |conn.queue| == 1 {
      assert conn.queue == [conn.queue[0]];
    }
  }

  // What a reply leaves of the links of any call but the one it answers.
  lemma RepliedOther(q: CallId, call: Call, c: ConnId, conn: Conn, step: Step)
    requires ConnOk(conn) && ReplyEnabled(conn, step) && Linked(q, call, c, conn)
    requires q != ReplyCommand(conn, step).call
    ensures Linked(q, call, c, Replied(conn, step))
  {
    hide Pending;
    forall k: nat
      ensures Pending(Replied(conn, step), Command(q, k)) <==> Pending(conn, Command(q, k))
      ensures Command(q, k) in Replied(conn, step).queue || Replied(conn, step).worker == Taken(Command(q, k)) ==>
              Command(q, k) in conn.queue || conn.worker == Taken(Command(q, k))
    {
      RepliedPending(conn, step, Command(q, k));
    }
    RepliedConnOk(conn, step);
  }

  // The call that is answered: its command was its last attempt, unanswered so far,
  // and written only if it left the queue.
  lemma RepliedCall(q: CallId, call: Call, c: ConnId, conn: Conn, step: Step)
    requires ConnOk(conn) && CallOk(call) && ReplyEnabled(conn, step) && Linked(q, call, c, conn)
    requires q == ReplyCommand(conn, step).call
    ensures
      var k := ReplyCommand(conn, step).attempt;
      var told := Told(call, k, ReplyOutcome(step));
      CallOk(told) && Linked(q, told, c, Replied(conn, step)) && k == Last(call) && call.attempts[k] == c && k !in call.outcomes
  {
    hide Pending, ConnOk, ReplyEnabled, ReplyCommand, Replied, CallOk, PhaseLinked;
    var cmd := ReplyCommand(conn, step);
    RepliedPending(conn, step, cmd);
    assert cmd == Command(q, cmd.attempt);
    forall k: nat
      ensures Pending(Replied(conn, step), Command(q, k)) <==> Pending(conn, Command(q, k)) && Command(q, k) != cmd
      ensures Command(q, k) in Replied(conn, step).queue || Replied(conn, step).worker == Taken(Command(q, k)) ==>
              Command(q, k) in conn.queue || conn.worker == Taken(Command(q, k))
    {
      RepliedPending(conn, step, Command(q, k));
    }
    assert step.Drain? ==> call.writes == [];
    ToldOk(call, cmd.attempt, ReplyOutcome(step));
    RepliedPhase(q, call, c, conn, step, cmd.attempt);
  }

  lemma ToldOk(call: Call, k: nat, o: Outcome)
    requires CallOk(call) && k == Last(call) && k !in call.outcomes && (o.NotSent? ==> call.writes == [])
    ensures CallOk(Told(call, k, o))
  {
    var told := Told(call, k, o);
    assert told.outcomes[k] == [o];
    assert HistoryOk(told);
  }

  lemma RepliedPhase(q: CallId, call: Call, c: ConnId, conn: Conn, step: Step, k: nat)
    requires ConnOk(conn) && ReplyEnabled(conn, step) && PhaseLinked(call.phase, call.key, c, conn)
    ensures PhaseLinked(Told(call, k, ReplyOutcome(step)).phase, call.key, c, Replied(conn, step))
  {
  }

  // Calls alike in everything but history: the rest of the system cannot tell.
  ghost predicate SameStanding(one: Call, other: Call) {
    one.key == other.key && one.attempts == other.attempts
    && PhaseConn(one.phase) == PhaseConn(other.phase)
    && (HoldsPermit(one.phase) <==> HoldsPermit(other.phase))
    && (one.phase.HasClient? <==> other.phase.HasClient?) && (one.phase.HasPermit? <==> other.phase.HasPermit?)
    && (one.phase.HasLock? <==> other.phase.HasLock?) && (one.phase.Connecting? <==> other.phase.Connecting?)
    && (one.phase.Waiting? <==> other.phase.Waiting?) && (one.phase.Reserved? <==> other.phase.Reserved?)
  }

  lemma StandingKept(q: CallId, one: Call, other: Call, e: Entry)
    requires SameStanding(one, other)
    ensures LockOk(q, one, e) == LockOk(q, other, e)
    ensures forall x :: Apart(one, x) ==> Apart(other, x)
    ensures forall c, conn :: PooledFor(one, c, conn, e) ==> PooledFor(other, c, conn, e)
  {
  }

  // Elsewhere, a call whose last attempt is on `c` has nothing pending.
  lemma LinkedElsewhere(q: CallId, one: Call, other: Call, c: ConnId, conn: Conn)
    requires Linked(q, one, c, conn) && SameStanding(one, other)
    requires one.attempts != [] && one.attempts[Last(one)] != c
    requires one.phase == other.phase || (one.phase.Sent? && one.phase.conn != c)
    ensures Linked(q, other, c, conn)
  {
    hide Pending;
    forall k: nat ensures !Pending(conn, Command(q, k)) {
    }
    forall k: nat ensures !(Command(q, k) in conn.queue || conn.worker == Taken(Command(q, k))) {
      TakenPending(conn, Command(q, k));
      assert !Pending(conn, Command(q, k));
    }
  }

  lemma TakenPending(conn: Conn, cmd: Command)
    ensures cmd in conn.queue || conn.worker == Taken(cmd) ==> Pending(conn, cmd)
  {
  }

  // A step that changes connection `c` and the history of the call it works for.
  lemma KeepHistory(s: System, t: System, q: CallId, c: ConnId)
    requires Inv(s) && q in s.calls && c in s.conns
    requires c in t.conns && q in t.calls
    requires t == SetCall(SetConn(s, c, t.conns[c]), q, t.calls[q])
    requires SameStanding(s.calls[q], t.calls[q]) && CallOk(t.calls[q])
    requires ConnOk(t.conns[c]) && t.conns[c].key == s.conns[c].key
    requires InUse(t.conns[c]) && !OutOfLoop(t.conns[c].worker) ==> InUse(s.conns[c]) && !OutOfLoop(s.conns[c].worker)
    requires OutOfLoop(s.conns[c].worker) ==> OutOfLoop(t.conns[c].worker)
    requires forall cmd :: cmd in t.conns[c].queue || InWorker(t.conns[c].worker, cmd)
                       ==> cmd in s.conns[c].queue || InWorker(s.conns[c].worker, cmd)
    requires s.calls[q].attempts != [] && s.calls[q].attempts[Last(s.calls[q])] == c
    requires s.calls[q].phase == t.calls[q].phase || (s.calls[q].phase.Sent? && s.calls[q].phase.conn == c)
    requires forall x :: x in t.calls ==> Linked(x, t.calls[x], c, t.conns[c])
    ensures Inv(t)
  {
    hide Inv, Linked, ConnOk, InUse, OutOfLoop, InWorker, EntryOk, Apart, CallOk, PooledFor, LockOk, EntryOf, SameStanding, PhaseConn;
    var key := s.conns[c].key;
    var e := EntryOf(s, s.calls[q].key);
    assert forall k :: EntryOf(t, k) == EntryOf(s, k) by {
      EntriesSame(s, t);
    }
    InvCall(s, q);
    InvConn(s, c);
    InvEntry(s, key);
    StandingKept(q, s.calls[q], t.calls[q], e);
    StandingParts(s.calls[q], t.calls[q]);
    forall x | x in t.conns ensures LinkAt(t, q, x) {
      InvLink(s, q, x);
      if x != c {
        LinkedElsewhere(q, s.calls[q], t.calls[q], x, s.conns[x]);
      } else {
        LoopLeft(t.calls[q], c, s.conns[c], t.conns[c], e);
      }
    }
    forall x | x in t.calls && x != q ensures Apart(t.calls[q], t.calls[x]) {
      InvApart(s, q, x);
    }
    Rebuild(s, t, Some(q), Some(c), key);
  }

  lemma StandingParts(one: Call, other: Call)
    requires SameStanding(one, other)
    ensures one.key == other.key && one.attempts == other.attempts && PhaseConn(one.phase) == PhaseConn(other.phase)
  {
  }

  lemma LoopLeft(call: Call, c: ConnId, before: Conn, after: Conn, e: Entry)
    requires PooledFor(call, c, before, e) && (OutOfLoop(before.worker) ==> OutOfLoop(after.worker))
    ensures PooledFor(call, c, after, e)
  {
  }

  lemma KeepReply(s: System, step: Step)
    requires Inv(s) && IsReply(step) && Enabled(s, step)
    ensures Inv(Apply(s, step))
  {
    hide Inv, Linked, ConnOk, InUse, OutOfLoop, InWorker, EntryOk, Apart, PooledFor, LockOk, EntryOf, PhaseConn, ReplyEnabled,
         Replied, Told, ReplyCommand, CallOk, Apply, Enabled;
    ReplyEffect(s, step);
    var c := step.conn;
    var conn := s.conns[c];
    var cmd := ReplyCommand(conn, step);
    var q := cmd.call;
    var call := s.calls[q];
    var t := Apply(s, step);
    InvCall(s, q);
    InvConn(s, c);
    InvLink(s, q, c);
    RepliedConnOk(conn, step);
    RepliedCall(q, call, c, conn, step);
    ToldStanding(call, cmd.attempt, ReplyOutcome(step));
    forall x | x in t.calls ensures Linked(x, t.calls[x], c, t.conns[c]) {
      if x != q {
        InvLink(s, x, c);
        RepliedOther(x, s.calls[x], c, conn, step);
      }
    }
    SentOn(call, c);
    KeepHistory(s, t, q, c);
  }

  lemma SentOn(call: Call, c: ConnId)
    requires CallOk(call) && call.attempts != [] && call.attempts[Last(call)] == c
    ensures call.phase.Sent? ==> call.phase.conn == c
  {
  }

  lemma ToldStanding(call: Call, attempt: nat, o: Outcome)
    ensures SameStanding(call, Told(call, attempt, o))
    ensures Told(call, attempt, o).phase == call.phase || call.phase.Sent?
  {
  }

  lemma BegunLinked(q: CallId, call: Call, c: ConnId, conn: Conn)
    requires ConnOk(conn) && CallOk(call) && Linked(q, call, c, conn) && conn.worker.Taken? && conn.worker.cmd.call == q
    ensures
      var k := conn.worker.cmd.attempt;
      var begun := call.(writes := call.writes + [k]);
      CallOk(begun) && Linked(q, begun, c, conn.(worker := Writing(conn.worker.cmd)))
      && k == Last(call) && call.attempts[k] == c
  {
    var cmd := conn.worker.cmd;
    assert Pending(conn, Command(q, cmd.attempt));
    forall k: nat
      ensures Pending(conn.(worker := Writing(cmd)), Command(q, k)) <==> Pending(conn, Command(q, k))
    {
    }
  }

  lemma BegunOther(q: CallId, call: Call, c: ConnId, conn: Conn)
    requires Linked(q, call, c, conn) && conn.worker.Taken?
    ensures Linked(q, call, c, conn.(worker := Writing(conn.worker.cmd)))
  {
    forall k: nat
      ensures Pending(conn.(worker := Writing(conn.worker.cmd)), Command(q, k)) <==> Pending(conn, Command(q, k))
    {
    }
  }

  lemma BegunConnOk(conn: Conn)
    requires ConnOk(conn) && conn.worker.Taken?
    ensures
      var next := conn.(worker := Writing(conn.worker.cmd));
      ConnOk(next) && InUse(conn) && !OutOfLoop(conn.worker)
      && forall cmd :: cmd in next.queue || InWorker(next.worker, cmd) ==> cmd in conn.queue || InWorker(conn.worker, cmd)
  {
  }

  lemma KeepBeginWrite(s: System, step: Step)
    requires Inv(s) && step.BeginWrite? && Enabled(s, step)
    ensures Inv(Apply(s, step))
  {
    hide Inv, Linked, ConnOk, InUse, OutOfLoop, InWorker, EntryOk, Apart, PooledFor, LockOk, EntryOf, PhaseConn, CallOk;
    var c := step.conn;
    var conn := s.conns[c];
    var q := conn.worker.cmd.call;
    var call := s.calls[q];
    var t := Apply(s, step);
    InvCall(s, q);
    InvConn(s, c);
    InvLink(s, q, c);
    BegunConnOk(conn);
    BegunLinked(q, call, c, conn);
    forall x | x in t.calls ensures Linked(x, t.calls[x], c, t.conns[c]) {
      if x != q {
        InvLink(s, x, c);
        BegunOther(x, s.calls[x], c, conn);
      }
    }
    KeepHistory(s, t, q, c);
  }
}
