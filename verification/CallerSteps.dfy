// Every step of a caller keeps the invariant of the pool: starting a call, choosing a
// client from the list, waiting for a permit, taking the connect lock, dialing,
// registering the new client, sending the command, reading its outcome, retrying, and
// being cancelled. One lemma per step, over the parts of the invariant it touches.
module CallerSteps {
  import opened Results
  import opened ClientPool
  import opened ClientPoolSafety

  // ----- caller steps --------------------------------------------------------

  // The call holds the permit of `c`, or its client before anyone else does.
  predicate Claims(p: Phase, c: ConnId) {
    (HoldsPermit(p) || p.HasClient?) && p.conn == c
  }

  predicate SameHistory(one: Call, other: Call) {
    one.key == other.key && one.attempts == other.attempts && one.writes == other.writes && one.outcomes == other.outcomes
  }

  lemma HistoryKept(q: CallId, one: Call, other: Call, c: ConnId, conn: Conn, a: nat)
    requires HistoryLinked(q, one, c, conn) && SameHistory(one, other)
    ensures HistoryLinked(q, other, c, conn.(available := a))
  {
    forall k: nat ensures Pending(conn.(available := a), Command(q, k)) <==> Pending(conn, Command(q, k)) {
    }
  }

  lemma PhaseKept(p: Phase, key: PoolKey, c: ConnId, conn: Conn, a: nat)
    requires PhaseLinked(p, key, c, conn) && !Claims(p, c)
    ensures PhaseLinked(p, key, c, conn.(available := a))
  {
  }

  lemma PhaseElsewhere(p: Phase, key: PoolKey, c: ConnId, conn: Conn, call: Call, e: Entry)
    requires PhaseConn(p) != Some(c) && call.phase == p
    ensures PhaseLinked(p, key, c, conn) && PooledFor(call, c, conn, e)
  {
  }

  // Only the permits of `c` change.
  predicate PermitsOnly(s: System, t: System, c: ConnId) {
    c in s.conns && c in t.conns && t.conns[c] == s.conns[c].(available := t.conns[c].available)
  }

  // A caller's step: its phase, its entry, and the permits of one connection.
  lemma KeepCall(s: System, t: System, q: CallId, c: Option<ConnId>, key: PoolKey)
    requires Inv(s) && Only(s, t, Some(q), c, key) && Adjusts(s, t, Some(q), key) && EntryAt(t, key)
    requires q in s.calls && q in t.calls && s.calls[q].key == key && SameHistory(s.calls[q], t.calls[q])
    requires CallOk(t.calls[q]) && LockOk(q, t.calls[q], EntryOf(t, key))
    requires c.Some? ==> PermitsOnly(s, t, c.value) && ConnOk(t.conns[c.value])
    requires forall x :: c.Some? && x in s.calls && x != q ==> !Claims(s.calls[x].phase, c.value)
    requires
      var p := t.calls[q].phase;
      PhaseConn(p).Some? ==>
        PhaseConn(p).value in t.conns && PhaseLinked(p, key, PhaseConn(p).value, t.conns[PhaseConn(p).value])
        && PooledFor(t.calls[q], PhaseConn(p).value, t.conns[PhaseConn(p).value], EntryOf(t, key))
    requires forall x :: x in s.calls && x != q ==> Apart(t.calls[q], s.calls[x])
    ensures Inv(t)
  {
    hide Inv, HistoryLinked, PhaseLinked, ConnOk, OutOfLoop, InWorker, EntryOk, Apart, CallOk, PooledFor, LockOk, EntryOf, PhaseConn,
         Adjusts, Claims, EntryAt, Busy;
    var call := t.calls[q];
    InvCall(s, q);
    forall x | x in t.conns ensures LinkAt(t, q, x) {
      InvLink(s, q, x);
      HistoryKept(q, s.calls[q], call, x, s.conns[x], t.conns[x].available);
      if Some(x) != PhaseConn(call.phase) {
        PhaseElsewhere(call.phase, key, x, t.conns[x], call, EntryOf(t, key));
      }
    }
    if c.Some? {
      InvConn(s, c.value);
      PermitsKeepUse(s.conns[c.value], t.conns[c.value].available);
      EntryPooled(s, t, Some(q), c.value, key);
      forall x | x in t.calls && x != q ensures Linked(x, t.calls[x], c.value, t.conns[c.value]) {
        InvLink(s, x, c.value);
        HistoryKept(x, s.calls[x], s.calls[x], c.value, s.conns[c.value], t.conns[c.value].available);
        PhaseKept(s.calls[x].phase, s.calls[x].key, c.value, s.conns[c.value], t.conns[c.value].available);
      }
    }
    Rebuild(s, t, Some(q), c, key);
  }

  lemma PermitsKeepUse(conn: Conn, a: nat)
    ensures InUse(conn.(available := a)) == InUse(conn)
  {
  }

  lemma EntryPooled(s: System, t: System, q: Option<CallId>, c: ConnId, key: PoolKey)
    requires Only(s, t, q, Some(c), key) && Adjusts(s, t, q, key) && PermitsOnly(s, t, c)
    requires Pooled(c, s.conns[c], EntryOf(s, s.conns[c].key))
    ensures Pooled(c, t.conns[c], EntryOf(t, t.conns[c].key))
  {
    hide EntryOf;
    PermitsKeepUse(s.conns[c], t.conns[c].available);
  }

  lemma {:induction false} MinusDistinct(clients: seq<ConnId>, gone: set<ConnId>)
    requires Distinct(clients)
    ensures Distinct(Minus(clients, gone))
  {
    if clients != [] {
      var rest := clients[1..];
      assert Distinct(rest) by {
        assert forall i, j :: 0 <= i < j < |rest| ==> rest[i] == clients[i + 1] && rest[j] == clients[j + 1];
      }
      MinusDistinct(rest, gone);
      assert clients[0] !in rest;
    }
  }

  // Taking closed clients off a list, and the lock through `q` alone.
  lemma EntryStays(s: System, t: System, q: CallId, c: Option<ConnId>, key: PoolKey, gone: set<ConnId>)
    requires EntryAt(s, key) && Only(s, t, Some(q), c, key)
    requires q in t.calls && t.calls[q].key == key
    requires EntryOf(t, key).clients == Minus(EntryOf(s, key).clients, gone)
    requires forall x :: x in gone && x in s.conns ==> OutOfLoop(s.conns[x].worker)
    requires c.Some? && c.value in s.conns ==> t.conns[c.value].worker == s.conns[c.value].worker
    requires var e, f := EntryOf(s, key).lock, EntryOf(t, key).lock;
             f == e || (f.None? && e == Some(q)) || (e.None? && f == Some(q))
    ensures EntryAt(t, key) && Adjusts(s, t, Some(q), key)
  {
    hide EntryOf, OutOfLoop, EntryAt, Minus;
    EntryShorter(s, t, q, c, key, gone);
    MinusMembers(s, key);
  }

  lemma MinusMembers(s: System, key: PoolKey)
    requires EntryAt(s, key)
    ensures forall x :: x in EntryOf(s, key).clients ==> x in s.conns
  {
  }

  lemma EntryShorter(s: System, t: System, q: CallId, c: Option<ConnId>, key: PoolKey, gone: set<ConnId>)
    requires EntryAt(s, key) && Only(s, t, Some(q), c, key)
    requires q in t.calls && t.calls[q].key == key
    requires EntryOf(t, key).clients == Minus(EntryOf(s, key).clients, gone)
    requires EntryOf(t, key).lock == EntryOf(s, key).lock || EntryOf(t, key).lock.None? || EntryOf(t, key).lock == Some(q)
    ensures EntryAt(t, key)
  {
    hide EntryOf, Minus;
    MinusDistinct(EntryOf(s, key).clients, gone);
  }

  lemma ClosedIsOut(s: System, dropped: set<ConnId>)
    requires AllClosed(s, dropped)
    ensures forall x :: x in dropped && x in s.conns ==> OutOfLoop(s.conns[x].worker)
  {
  }

  lemma {:induction false} MinusNone(clients: seq<ConnId>)
    ensures Minus(clients, {}) == clients
  {
    if clients != [] {
      MinusNone(clients[1..]);
    }
  }

  // A pooled client is nobody's private one.
  lemma NotPrivate(s: System, key: PoolKey, d: ConnId, x: CallId)
    requires Inv(s) && d in EntryOf(s, key).clients && x in s.calls
    ensures d in s.conns && s.conns[d].key == key
    ensures s.calls[x].phase.HasClient? || s.calls[x].phase.HasPermit? ==> s.calls[x].phase.conn != d
  {
    hide Inv, EntryOk, ConnOk, Pooled, HistoryLinked, Apart, CallOk;
    InvEntry(s, key);
    InvLink(s, x, d);
    InvCall(s, x);
  }

  // A free permit is in nobody's hands.
  lemma PermitFree(s: System, d: ConnId, x: CallId)
    requires Inv(s) && d in s.conns && s.conns[d].available > 0 && x in s.calls
    ensures HoldsPermit(s.calls[x].phase) ==> s.calls[x].phase.conn != d
  {
    hide Inv, EntryOk, ConnOk, Pooled, HistoryLinked, Apart, CallOk, EntryOf;
    InvLink(s, x, d);
  }

  lemma ReserveParts(q: CallId, call: Call, d: ConnId, conn: Conn, e: Entry, reused: bool)
    requires CallOk(call) && ConnOk(conn) && conn.available > 0 && conn.key == call.key && LockOk(q, call, e)
    requires call.phase.AtStart? || call.phase.HasLock? || call.phase.Waiting?
    ensures
      var next := call.(phase := Reserved(d, true));
      var left := conn.(available := conn.available - 1);
      CallOk(next) && ConnOk(left) && PhaseLinked(next.phase, next.key, d, left)
      && (Unlocked(e, call.phase).lock == e.lock || (Unlocked(e, call.phase).lock.None? && e.lock == Some(q)))
      && forall f: Entry :: f.lock == Unlocked(e, call.phase).lock ==> LockOk(q, next, f)
  {
  }

  lemma KeepChooseReserve(s: System, step: Step)
    requires Inv(s) && step.ChooseReserve? && Enabled(s, step)
    ensures Inv(Apply(s, step))
  {
    hide Inv, HistoryLinked, PhaseLinked, ConnOk, EntryOk, CallOk, LockOk, EntryAt, Pooled, AllClosed, Adjusts, Minus;
    var q, d := step.call, step.conn;
    var call := s.calls[q];
    var key, e := call.key, EntryOf(s, call.key);
    var t := Apply(s, step);
    ClosedIsOut(s, step.dropped);
    InvEntry(s, key);
    InvCall(s, q);
    InvConn(s, d);
    InvLink(s, q, d);
    NotPrivate(s, key, d, q);
    ReserveParts(q, call, d, s.conns[d], e, true);
    EntryStays(s, t, q, Some(d), key, step.dropped);
    forall x | x in s.calls && x != q ensures !Claims(s.calls[x].phase, d) && Apart(t.calls[q], s.calls[x]) {
      NotPrivate(s, key, d, x);
      PermitFree(s, d, x);
    }
    KeepCall(s, t, q, Some(d), key);
  }

  lemma ConnectParts(q: CallId, call: Call, e: Entry, kept: seq<ConnId>)
    requires CallOk(call) && MayChoose(call.phase) && LockOk(q, call, e) && |kept| < MAX_CONNECTIONS_PER_KEY
    ensures
      var next := if call.phase.AtStart? then call.(phase := WantsLock) else call.(phase := Connecting, dials := call.dials + 1);
      CallOk(next) && LockOk(q, next, e.(clients := kept)) && PhaseConn(next.phase).None?
  {
  }

  // A call that names no connection is apart from every other.
  lemma ApartNone(call: Call, other: Call)
    requires PhaseConn(call.phase).None?
    ensures Apart(call, other)
  {
  }

  // After a choice to connect, only the call's place and its entry's list differ.
  lemma ConnectEffect(s: System, step: Step)
    requires step.ChooseConnect? && Enabled(s, step)
    ensures
      var (q, t) := (step.call, Apply(s, step));
      var call := s.calls[q];
      var e := EntryOf(s, call.key);
      t.conns == s.conns
      && t.calls == s.calls[q := if call.phase.AtStart? then call.(phase := WantsLock)
                                 else call.(phase := Connecting, dials := call.dials + 1)]
      && EntryOf(t, call.key) == e.(clients := Kept(s, q, step.dropped))
      && (forall k :: k != call.key ==> EntryOf(t, k) == EntryOf(s, k))
      && MayChoose(call.phase) && |Kept(s, q, step.dropped)| < MAX_CONNECTIONS_PER_KEY && AllClosed(s, step.dropped)
  {
    hide AllClosed, Minus;
  }

  lemma KeepChooseConnect(s: System, step: Step)
    requires Inv(s) && step.ChooseConnect? && Enabled(s, step)
    ensures Inv(Apply(s, step))
  {
    hide Inv, HistoryLinked, PhaseLinked, ConnOk, EntryOk, CallOk, LockOk, EntryAt, Pooled, AllClosed, Adjusts, Minus, Apart, PhaseConn,
         EntryOf, Apply;
    var q := step.call;
    var call := s.calls[q];
    var key, e := call.key, EntryOf(s, call.key);
    var t := Apply(s, step);
    ConnectEffect(s, step);
    ClosedIsOut(s, step.dropped);
    InvEntry(s, key);
    InvCall(s, q);
    ConnectParts(q, call, e, Kept(s, q, step.dropped));
    EntryStays(s, t, q, None, key, step.dropped);
    forall x | x in s.calls && x != q ensures Apart(t.calls[q], s.calls[x]) {
      ApartNone(t.calls[q], s.calls[x]);
    }
    KeepCall(s, t, q, None, key);
  }

  lemma WaitParts(q: CallId, call: Call, d: ConnId, conn: Conn, e: Entry)
    requires CallOk(call) && MayChoose(call.phase) && LockOk(q, call, e) && conn.key == call.key
    ensures
      var next := call.(phase := Waiting(d));
      CallOk(next) && PhaseLinked(next.phase, next.key, d, conn)
      && (Unlocked(e, call.phase).lock == e.lock || (Unlocked(e, call.phase).lock.None? && e.lock == Some(q)))
      && forall f: Entry :: f.lock == Unlocked(e, call.phase).lock ==> LockOk(q, next, f)
  {
  }

  lemma KeepChooseWait(s: System, step: Step)
    requires Inv(s) && step.ChooseWait? && Enabled(s, step)
    ensures Inv(Apply(s, step))
  {
    hide Inv, HistoryLinked, PhaseLinked, ConnOk, EntryOk, CallOk, LockOk, EntryAt, Pooled, AllClosed, Adjusts, Minus;
    var q := step.call;
    var call := s.calls[q];
    var key, e := call.key, EntryOf(s, call.key);
    var t := Apply(s, step);
    var kept := Kept(s, q, step.dropped);
    var d := kept[e.next % |kept|];
    assert d in kept;
    ClosedIsOut(s, step.dropped);
    InvEntry(s, key);
    InvCall(s, q);
    NotPrivate(s, key, d, q);
    WaitParts(q, call, d, s.conns[d], e);
    EntryStays(s, t, q, None, key, step.dropped);
    forall x | x in s.calls && x != q ensures Apart(t.calls[q], s.calls[x]) {
      NotPrivate(s, key, d, x);
    }
    KeepCall(s, t, q, None, key);
  }

  lemma TakeLockParts(q: CallId, call: Call, e: Entry)
    requires CallOk(call) && call.phase.WantsLock?
    ensures CallOk(call.(phase := HasLock)) && LockOk(q, call.(phase := HasLock), e.(lock := Some(q)))
  {
  }

  lemma KeepTakeLock(s: System, step: Step)
    requires Inv(s) && step.TakeLock? && Enabled(s, step)
    ensures Inv(Apply(s, step))
  {
    hide Inv, HistoryLinked, PhaseLinked, ConnOk, EntryOk, CallOk, LockOk, EntryAt, Pooled, Adjusts, Minus, Apart;
    var q := step.call;
    var call := s.calls[q];
    var key, e := call.key, EntryOf(s, call.key);
    var t := Apply(s, step);
    InvEntry(s, key);
    InvCall(s, q);
    TakeLockParts(q, call, e);
    MinusNone(e.clients);
    EntryStays(s, t, q, None, key, {});
    forall x | x in s.calls && x != q ensures Apart(t.calls[q], s.calls[x]) {
      ApartNone(t.calls[q], s.calls[x]);
    }
    KeepCall(s, t, q, None, key);
  }

  // A call may give up wherever it is; only its lock and its permit have to go back.
  lemma EndParts(q: CallId, call: Call, e: Entry, p: Phase)
    requires CallOk(call) && LockOk(q, call, e) && (p.Finished? || p.Cancelled?)
    ensures CallOk(call.(phase := p)) && LockOk(q, call.(phase := p), Unlocked(e, call.phase)) && PhaseConn(p).None?
    ensures !HoldsLock(call.phase) ==> Unlocked(e, call.phase) == e
  {
  }

  lemma KeepConnectFails(s: System, step: Step)
    requires Inv(s) && step.ConnectFails? && Enabled(s, step)
    ensures Inv(Apply(s, step))
  {
    hide Inv, HistoryLinked, PhaseLinked, ConnOk, EntryOk, CallOk, LockOk, EntryAt, Pooled, Adjusts, Minus, Apart;
    var q := step.call;
    var call := s.calls[q];
    InvCall(s, q);
    EndParts(q, call, EntryOf(s, call.key), Finished(false));
    KeepEnd(s, Apply(s, step), q);
  }

  // Ending a call without a permit in its hands.
  lemma KeepEnd(s: System, t: System, q: CallId)
    requires Inv(s) && q in s.calls && q in t.calls
    requires t.conns == s.conns && t.calls == s.calls[q := t.calls[q]] && SameHistory(s.calls[q], t.calls[q])
    requires forall k :: k != s.calls[q].key ==> EntryOf(t, k) == EntryOf(s, k)
    requires EntryOf(t, s.calls[q].key) == Unlocked(EntryOf(s, s.calls[q].key), s.calls[q].phase)
    requires CallOk(t.calls[q]) && PhaseConn(t.calls[q].phase).None? && LockOk(q, t.calls[q], EntryOf(t, s.calls[q].key))
    ensures Inv(t)
  {
    hide Inv, HistoryLinked, PhaseLinked, ConnOk, EntryOk, CallOk, EntryAt, Pooled, Adjusts, Minus, Apart, EntryOf;
    var key := s.calls[q].key;
    var e := EntryOf(s, key);
    InvEntry(s, key);
    InvCall(s, q);
    MinusNone(e.clients);
    EntryStays(s, t, q, None, key, {});
    forall x | x in s.calls && x != q ensures Apart(t.calls[q], s.calls[x]) {
      ApartNone(t.calls[q], s.calls[x]);
    }
    KeepCall(s, t, q, None, key);
  }

  // Nothing about the entry of the call's key changes.
  lemma EntryUntouched(s: System, t: System, q: CallId, c: Option<ConnId>, key: PoolKey)
    requires EntryAt(s, key) && Only(s, t, Some(q), c, key) && q in t.calls && t.calls[q].key == key
    requires EntryOf(t, key) == EntryOf(s, key)
    requires c.Some? && c.value in s.conns ==> t.conns[c.value].worker == s.conns[c.value].worker
    ensures EntryAt(t, key) && Adjusts(s, t, Some(q), key)
  {
    hide EntryOf, OutOfLoop;
    MinusNone(EntryOf(s, key).clients);
    EntryStays(s, t, q, c, key, {});
  }

  // A caller takes the permit of the connection it already names.
  lemma GrantParts(q: CallId, call: Call, d: ConnId, conn: Conn, e: Entry, p: Phase)
    requires CallOk(call) && ConnOk(conn) && conn.available > 0 && LockOk(q, call, e) && PhaseConn(call.phase) == Some(d)
    requires PhaseLinked(call.phase, call.key, d, conn) && PooledFor(call, d, conn, e)
    requires (call.phase.HasClient? && p == HasPermit(d)) || (call.phase.Waiting? && p == Reserved(d, true))
    ensures
      var next := call.(phase := p);
      var left := conn.(available := conn.available - 1);
      CallOk(next) && ConnOk(left) && PhaseLinked(p, call.key, d, left) && LockOk(q, next, e) && PooledFor(next, d, left, e)
  {
  }

  lemma GrantApart(call: Call, d: ConnId, p: Phase, other: Call)
    requires Apart(call, other) && PhaseConn(call.phase) == Some(d)
    requires (p == HasPermit(d) && call.phase.HasClient?) || (p == Reserved(d, true) && call.phase.Waiting?)
    requires HoldsPermit(other.phase) ==> other.phase.conn != d
    ensures Apart(call.(phase := p), other) && !Claims(other.phase, d)
  {
  }

  lemma KeepGrant(s: System, t: System, q: CallId, d: ConnId, p: Phase)
    requires Inv(s) && q in s.calls && d in s.conns && s.conns[d].available > 0 && PhaseConn(s.calls[q].phase) == Some(d)
    requires (s.calls[q].phase.HasClient? && p == HasPermit(d)) || (s.calls[q].phase.Waiting? && p == Reserved(d, true))
    requires t == SetPhase(SetConn(s, d, s.conns[d].(available := s.conns[d].available - 1)), q, p)
    ensures Inv(t)
  {
    hide Inv, HistoryLinked, PhaseLinked, ConnOk, EntryOk, CallOk, LockOk, EntryAt, Pooled, Adjusts, PooledFor, Apart, Claims,
         HoldsPermit, EntryOf;
    var call := s.calls[q];
    var key := call.key;
    InvEntry(s, key);
    InvCall(s, q);
    InvConn(s, d);
    InvLink(s, q, d);
    GrantParts(q, call, d, s.conns[d], EntryOf(s, key), p);
    EntriesSame(s, t);
    EntryUntouched(s, t, q, Some(d), key);
    forall x | x in s.calls && x != q ensures !Claims(s.calls[x].phase, d) && Apart(t.calls[q], s.calls[x]) {
      InvApart(s, q, x);
      PermitFree(s, d, x);
      GrantApart(call, d, p, s.calls[x]);
    }
    KeepCall(s, t, q, Some(d), key);
  }

  lemma KeepTryPermit(s: System, step: Step)
    requires Inv(s) && step.TryPermit? && Enabled(s, step)
    ensures Inv(Apply(s, step))
  {
    hide Inv, HistoryLinked, PhaseLinked, ConnOk, EntryOk, CallOk, LockOk, EntryAt, Pooled, Adjusts, Minus, Apart, PooledFor;
    var q := step.call;
    var call := s.calls[q];
    var conn := s.conns[call.phase.conn];
    if conn.shut || conn.available == 0 {
      InvCall(s, q);
      EndParts(q, call, EntryOf(s, call.key), Finished(false));
      KeepEnd(s, Apply(s, step), q);
    } else {
      KeepGrant(s, Apply(s, step), q, call.phase.conn, HasPermit(call.phase.conn));
    }
  }

  // Moving to a phase that names the same connection and holds nothing new.
  lemma KeepSameConn(s: System, t: System, q: CallId, p: Phase)
    requires Inv(s) && q in s.calls && t == SetPhase(s, q, p)
    requires PhaseConn(s.calls[q].phase).Some? && PhaseConn(p) == PhaseConn(s.calls[q].phase)
    requires p.Removing? && !HoldsLock(s.calls[q].phase)
    requires CallOk(t.calls[q])
    requires
      var d := PhaseConn(p).value;
      d in s.conns && OutOfLoop(s.conns[d].worker)
    ensures Inv(t)
  {
    hide Inv, HistoryLinked, ConnOk, EntryOk, CallOk, EntryAt, Pooled, Adjusts, EntryOf;
    var key := s.calls[q].key;
    var d := PhaseConn(p).value;
    InvEntry(s, key);
    InvCall(s, q);
    InvLink(s, q, d);
    EntriesSame(s, t);
    EntryUntouched(s, t, q, None, key);
    forall x | x in s.calls && x != q ensures Apart(t.calls[q], s.calls[x]) {
      InvApart(s, q, x);
    }
    KeepCall(s, t, q, None, key);
  }

  lemma RemovingOk(call: Call, d: ConnId, reused: bool, failed: bool)
    requires CallOk(call)
    requires (call.phase == Waiting(d) && reused && !failed) || (call.phase == Reserved(d, reused) && !failed)
             || (call.phase.Sent? && call.phase.conn == d && call.phase.reused == reused && call.phase.mail.Some?
                 && call.phase.mail.value == if failed then Failure else NotSent)
    ensures CallOk(call.(phase := Removing(d, reused, failed)))
  {
  }

  lemma KeepGetPermit(s: System, step: Step)
    requires Inv(s) && step.GetPermit? && Enabled(s, step)
    ensures Inv(Apply(s, step))
  {
    hide Inv, HistoryLinked, PhaseLinked, EntryOk, CallOk, LockOk, EntryAt, Pooled, Adjusts, Minus, Apart, PooledFor;
    var q := step.call;
    var call := s.calls[q];
    var d := call.phase.conn;
    InvCall(s, q);
    InvConn(s, d);
    if s.conns[d].shut {
      RemovingOk(call, d, true, false);
      KeepSameConn(s, Apply(s, step), q, Removing(d, true, false));
    } else {
      KeepGrant(s, Apply(s, step), q, d, Reserved(d, true));
    }
  }

  lemma KeepReceive(s: System, step: Step)
    requires Inv(s) && step.Receive? && Enabled(s, step)
    ensures Inv(Apply(s, step))
  {
    hide Inv, HistoryLinked, ConnOk, EntryOk, CallOk, LockOk, EntryAt, Pooled, Adjusts, Minus, Apart, PooledFor, EntryOf;
    var q := step.call;
    var call := s.calls[q];
    var d := call.phase.conn;
    var t := Apply(s, step);
    InvCall(s, q);
    InvLink(s, q, d);
    if call.phase.mail.value.Response? {
      EndParts(q, call, EntryOf(s, call.key), Finished(true));
      EntriesSame(s, t);
      KeepEnd(s, t, q);
    } else {
      RemovingOk(call, d, call.phase.reused, call.phase.mail.value.Failure?);
      KeepSameConn(s, t, q, Removing(d, call.phase.reused, call.phase.mail.value.Failure?));
    }
  }

  lemma RegisterParts(q: CallId, call: Call, d: ConnId, conn: Conn, e: Entry)
    requires CallOk(call) && LockOk(q, call, e) && call.phase == HasPermit(d) && PhaseLinked(call.phase, call.key, d, conn)
    requires EntryOk(e)
    ensures
      var next := call.(phase := Reserved(d, false));
      var f := e.(clients := e.clients + [d], lock := None);
      CallOk(next) && LockOk(q, next, f) && PhaseLinked(next.phase, call.key, d, conn) && PooledFor(next, d, conn, f)
      && EntryOk(f) && e.lock == Some(q) && Unlocked(e.(clients := e.clients + [d]), call.phase) == f
  {
  }

  lemma KeepRegister(s: System, step: Step)
    requires Inv(s) && step.Register? && Enabled(s, step)
    ensures Inv(Apply(s, step))
  {
    hide Inv, HistoryLinked, PhaseLinked, ConnOk, EntryOk, CallOk, LockOk, Pooled, Minus, PooledFor, OutOfLoop;
    var q := step.call;
    var call := s.calls[q];
    var d := call.phase.conn;
    var key, e := call.key, EntryOf(s, call.key);
    var t := Apply(s, step);
    InvEntry(s, key);
    InvCall(s, q);
    InvLink(s, q, d);
    RegisterParts(q, call, d, s.conns[d], e);
    KeyOf(call, d, s.conns[d]);
    forall x | x in s.calls && x != q ensures Apart(t.calls[q], s.calls[x]) {
      InvApart(s, q, x);
    }
    KeepCall(s, t, q, None, key);
  }

  lemma KeyOf(call: Call, d: ConnId, conn: Conn)
    requires PhaseLinked(call.phase, call.key, d, conn) && PhaseConn(call.phase) == Some(d)
    ensures conn.key == call.key
  {
  }

  lemma RemoveParts(q: CallId, call: Call, e: Entry, gone: set<ConnId>)
    requires CallOk(call) && call.phase.Removing? && LockOk(q, call, e)
    ensures
      var p := if call.phase.failed || !call.phase.reused then Finished(false) else AtStart;
      CallOk(call.(phase := p)) && LockOk(q, call.(phase := p), e.(clients := Minus(e.clients, gone))) && PhaseConn(p).None?
  {
  }

  lemma KeepRemove(s: System, step: Step)
    requires Inv(s) && step.Remove? && Enabled(s, step)
    ensures Inv(Apply(s, step))
  {
    hide Inv, HistoryLinked, ConnOk, EntryOk, CallOk, LockOk, EntryAt, Pooled, Adjusts, Minus, Apart, PooledFor;
    var q := step.call;
    var call := s.calls[q];
    var d := call.phase.conn;
    var key, e := call.key, EntryOf(s, call.key);
    var t := Apply(s, step);
    InvEntry(s, key);
    InvCall(s, q);
    InvLink(s, q, d);
    RemoveParts(q, call, e, {d});
    EntryStays(s, t, q, None, key, {d});
    forall x | x in s.calls && x != q ensures Apart(t.calls[q], s.calls[x]) {
      ApartNone(t.calls[q], s.calls[x]);
    }
    KeepCall(s, t, q, None, key);
  }

  lemma ReleaseParts(call: Call, d: ConnId, conn: Conn)
    requires HoldsPermit(call.phase) && call.phase.conn == d && PhaseLinked(call.phase, call.key, d, conn) && ConnOk(conn)
    ensures ConnOk(Release(conn)) && Release(conn) == conn.(available := 1) && conn.key == call.key
  {
  }

  // A call that gives its permit back, keeping or ending its hold on the lock.
  lemma KeepRelease(s: System, t: System, q: CallId, d: ConnId)
    requires Inv(s) && q in s.calls && q in t.calls && HoldsPermit(s.calls[q].phase) && s.calls[q].phase.conn == d && d in s.conns
    requires t.conns == s.conns[d := Release(s.conns[d])]
    requires t.calls == s.calls[q := t.calls[q]] && SameHistory(s.calls[q], t.calls[q])
    requires forall k :: k != s.calls[q].key ==> EntryOf(t, k) == EntryOf(s, k)
    requires EntryOf(t, s.calls[q].key) == Unlocked(EntryOf(s, s.calls[q].key), s.calls[q].phase)
    requires CallOk(t.calls[q]) && LockOk(q, t.calls[q], EntryOf(t, s.calls[q].key))
    requires t.calls[q].phase.Cancelled? || (t.calls[q].phase.Removing? && t.calls[q].phase.conn == d && OutOfLoop(s.conns[d].worker))
    ensures Inv(t)
  {
    hide Inv, HistoryLinked, ConnOk, EntryOk, CallOk, EntryAt, Pooled, Adjusts, Minus, EntryOf, Release, OutOfLoop;
    var key := s.calls[q].key;
    var e := EntryOf(s, key);
    InvEntry(s, key);
    InvCall(s, q);
    InvConn(s, d);
    InvLink(s, q, d);
    ReleaseParts(s.calls[q], d, s.conns[d]);
    MinusNone(e.clients);
    EntryStays(s, t, q, Some(d), key, {});
    forall x | x in s.calls && x != q ensures !Claims(s.calls[x].phase, d) && Apart(t.calls[q], s.calls[x]) {
      InvApart(s, q, x);
    }
    KeepCall(s, t, q, Some(d), key);
  }

  lemma KeepCancel(s: System, step: Step)
    requires Inv(s) && step.Cancel? && Enabled(s, step)
    ensures Inv(Apply(s, step))
  {
    hide Inv, HistoryLinked, PhaseLinked, ConnOk, EntryOk, CallOk, LockOk, EntryAt, Pooled, Adjusts, Minus, Apart, PooledFor, Release;
    var q := step.call;
    var call := s.calls[q];
    var t := Apply(s, step);
    InvCall(s, q);
    EndParts(q, call, EntryOf(s, call.key), Cancelled);
    if HoldsPermit(call.phase) {
      KeepRelease(s, t, q, call.phase.conn);
    } else {
      KeepEnd(s, t, q);
    }
  }

  // The command goes into an empty channel and becomes the call's last attempt.
  lemma SentLinked(q: CallId, call: Call, c: ConnId, conn: Conn, next: Call)
    requires Linked(q, call, c, conn) && CallOk(call) && AllReturned(call)
    requires call.phase.Reserved? && call.phase.conn != c
    requires next == call.(phase := Sent(call.phase.conn, call.phase.reused, None), attempts := call.attempts + [call.phase.conn])
    ensures Linked(q, next, c, conn)
  {
    forall k: nat ensures !Pending(conn, Command(q, k)) {
    }
  }

  lemma QueuedHistory(q: CallId, call: Call, d: ConnId, conn: Conn, next: Call, queued: Conn)
    requires HistoryLinked(q, call, d, conn) && CallOk(call) && conn.queue == [] && !Busy(conn.worker)
    requires next == call.(phase := next.phase, attempts := call.attempts + [d])
    requires queued == conn.(queue := [Command(q, |call.attempts|)])
    requires AllReturned(call)
    ensures HistoryLinked(q, next, d, queued)
  {
    forall k: nat ensures Pending(queued, Command(q, k)) <==> k == |call.attempts| {
    }
    assert next.attempts[Last(next)] == d;
    assert |call.attempts| !in call.outcomes;
  }

  lemma SentParts(q: CallId, call: Call, d: ConnId, conn: Conn, e: Entry)
    requires Linked(q, call, d, conn) && CallOk(call) && ConnOk(conn) && LockOk(q, call, e) && PooledFor(call, d, conn, e)
    requires call.phase.Reserved? && call.phase.conn == d && !ChannelClosed(conn.worker)
    ensures
      var next := call.(phase := Sent(d, call.phase.reused, None), attempts := call.attempts + [d]);
      var queued := conn.(queue := conn.queue + [Command(q, |call.attempts|)]);
      AllReturned(call) && conn.queue == [] && CallOk(next) && ConnOk(queued) && LockOk(q, next, e) && Linked(q, next, d, queued)
      && Pooled(d, queued, e) && PooledFor(next, d, queued, e) && conn.key == call.key
  {
    hide Pending, HistoryLinked;
    var next := call.(phase := Sent(d, call.phase.reused, None), attempts := call.attempts + [d]);
    var queued := conn.(queue := conn.queue + [Command(q, |call.attempts|)]);
    assert conn.queue == [] && !Busy(conn.worker);
    QueuedHistory(q, call, d, conn, next, queued);
    assert HistoryOk(next) && PhaseOk(next) && DialsOk(next);
  }

  lemma QueuedOther(q: CallId, call: Call, d: ConnId, conn: Conn, cmd: Command)
    requires Linked(q, call, d, conn) && cmd.call != q && !Claims(call.phase, d) && conn.queue == []
    ensures Linked(q, call, d, conn.(queue := conn.queue + [cmd]))
  {
    forall k: nat
      ensures Pending(conn.(queue := conn.queue + [cmd]), Command(q, k)) <==> Pending(conn, Command(q, k))
    {
    }
  }

  lemma SentApart(call: Call, next: Call, other: Call)
    requires Apart(call, other) && call.phase.Reserved? && next.phase.Sent? && next.phase.conn == call.phase.conn
    ensures Apart(next, other) && !Claims(other.phase, call.phase.conn)
  {
  }

  lemma QueuedCommands(conn: Conn, cmd: Command)
    requires conn.queue == []
    ensures forall other :: other in conn.(queue := conn.queue + [cmd]).queue ==> other == cmd
  {
  }

  lemma KeepSend(s: System, t: System, q: CallId, d: ConnId)
    requires Inv(s) && q in s.calls && d in s.conns && s.calls[q].phase.Reserved? && s.calls[q].phase.conn == d
    requires !ChannelClosed(s.conns[d].worker)
    requires t.entries == s.entries
    requires t.conns == s.conns[d := s.conns[d].(queue := s.conns[d].queue + [Command(q, |s.calls[q].attempts|)])]
    requires t.calls == s.calls[q := s.calls[q].(phase := Sent(d, s.calls[q].phase.reused, None),
                                                 attempts := s.calls[q].attempts + [d])]
    ensures Inv(t)
  {
    hide Inv, Linked, ConnOk, EntryOk, CallOk, LockOk, EntryAt, Pooled, Adjusts, Apart, PooledFor, EntryOf, Claims, AllReturned,
         ChannelClosed, OutOfLoop, InWorker;
    var call, conn := s.calls[q], s.conns[d];
    var key := call.key;
    var e := EntryOf(s, key);
    InvEntry(s, key);
    InvCall(s, q);
    InvConn(s, d);
    InvLink(s, q, d);
    SentParts(q, call, d, conn, e);
    QueuedCommands(conn, Command(q, |call.attempts|));
    EntriesSame(s, t);
    EntryUntouched(s, t, q, Some(d), key);
    forall x | x in t.conns ensures LinkAt(t, q, x) {
      InvLink(s, q, x);
      if x != d {
        SentLinked(q, call, x, s.conns[x], t.calls[q]);
        NotWanted(t.calls[q], x, s.conns[x], e);
      }
    }
    forall x | x in t.calls && x != q ensures Linked(x, t.calls[x], d, t.conns[d]) && Apart(t.calls[q], t.calls[x]) {
      InvLink(s, x, d);
      InvApart(s, q, x);
      SentApart(call, t.calls[q], s.calls[x]);
      QueuedOther(x, s.calls[x], d, conn, Command(q, |call.attempts|));
    }
    Rebuild(s, t, Some(q), Some(d), key);
  }

  lemma KeepSendCommand(s: System, step: Step)
    requires Inv(s) && step.SendCommand? && Enabled(s, step)
    ensures Inv(Apply(s, step))
  {
    hide Inv, Linked, ConnOk, EntryOk, LockOk, EntryAt, Pooled, Adjusts, Apart, PooledFor, Release, CallOk;
    var q := step.call;
    var call := s.calls[q];
    var d := call.phase.conn;
    var t := Apply(s, step);
    InvCall(s, q);
    if ChannelClosed(s.conns[d].worker) {
      RemovingOk(call, d, call.phase.reused, false);
      RemovingLock(q, call, EntryOf(s, call.key), t.calls[q].phase);
      KeepRelease(s, t, q, d);
    } else {
      KeepSend(s, t, q, d);
    }
  }

  lemma RemovingLock(q: CallId, call: Call, e: Entry, p: Phase)
    requires LockOk(q, call, e) && !HoldsLock(call.phase) && p.Removing?
    ensures LockOk(q, call.(phase := p), e) && Unlocked(e, call.phase) == e
  {
  }

  // A call or a connection that did not exist is on no one's mind.
  lemma NewCallLinked(s: System, q: CallId, key: PoolKey, c: ConnId)
    requires Inv(s) && q !in s.calls && c in s.conns
    ensures Linked(q, Call(key, AtStart, 0, [], [], map[]), c, s.conns[c])
  {
    hide Inv, ConnOk, Pooled;
    InvConn(s, c);
    var conn := s.conns[c];
    forall k: nat ensures !(Command(q, k) in conn.queue || InWorker(conn.worker, Command(q, k))) {
      assert Command(q, k).call !in s.calls;
    }
  }

  lemma KeepBegin(s: System, step: Step)
    requires Inv(s) && step.Begin? && Enabled(s, step)
    ensures Inv(Apply(s, step))
  {
    hide Inv, Linked, ConnOk, EntryOk, Pooled, Adjusts, Apart, PooledFor, EntryOf;
    var q, key := step.call, step.key;
    var t := Apply(s, step);
    var e := EntryOf(s, key);
    InvEntry(s, key);
    EntriesSame(s, t);
    EntryUntouched(s, t, q, None, key);
    NewCallOk(q, key, e);
    forall x | x in t.conns ensures LinkAt(t, q, x) {
      NewCallLinked(s, q, key, x);
      NotWanted(t.calls[q], x, s.conns[x], e);
    }
    forall x | x in t.calls && x != q ensures Apart(t.calls[q], t.calls[x]) {
      ApartNone(t.calls[q], t.calls[x]);
    }
    Rebuild(s, t, Some(q), None, key);
  }

  lemma NewCallOk(q: CallId, key: PoolKey, e: Entry)
    requires e.lock != Some(q)
    ensures
      var call := Call(key, AtStart, 0, [], [], map[]);
      CallOk(call) && LockOk(q, call, e) && PhaseConn(call.phase).None?
  {
  }

  lemma ClientParts(q: CallId, call: Call, d: ConnId, e: Entry)
    requires CallOk(call) && call.phase.Connecting? && LockOk(q, call, e) && d !in e.clients
    requires forall k :: 0 <= k < |call.attempts| ==> call.attempts[k] != d
    ensures
      var next, conn := call.(phase := HasClient(d)), Conn(call.key, 1, false, [], Idle);
      CallOk(next) && ConnOk(conn) && LockOk(q, next, e) && Linked(q, next, d, conn) && Pooled(d, conn, e)
      && PooledFor(next, d, conn, e) && PhaseConn(next.phase) == Some(d)
      && forall cmd :: !(cmd in conn.queue || InWorker(conn.worker, cmd))
  {
  }

  lemma ClientElsewhere(q: CallId, call: Call, d: ConnId, x: ConnId, conn: Conn)
    requires Linked(q, call, x, conn) && x != d
    ensures Linked(q, call.(phase := HasClient(d)), x, conn)
  {
  }

  lemma NewConnLinked(q: CallId, call: Call, d: ConnId, key: PoolKey)
    requires CallOk(call) && PhaseConn(call.phase) != Some(d)
    requires forall k :: 0 <= k < |call.attempts| ==> call.attempts[k] != d
    ensures Linked(q, call, d, Conn(key, 1, false, [], Idle))
  {
  }

  lemma ClientApart(call: Call, other: Call, d: ConnId)
    requires call.phase.Connecting? && PhaseConn(other.phase) != Some(d)
    ensures Apart(call.(phase := HasClient(d)), other)
  {
  }

  lemma KeepConnectWorks(s: System, step: Step)
    requires Inv(s) && step.ConnectWorks? && Enabled(s, step)
    ensures Inv(Apply(s, step))
  {
    hide Inv, Linked, ConnOk, EntryOk, Pooled, Adjusts, Apart, PooledFor, EntryOf, CallOk, LockOk, PhaseConn, InWorker;
    var q, d := step.call, step.conn;
    var call := s.calls[q];
    var key := call.key;
    var t := Apply(s, step);
    var e := EntryOf(s, key);
    InvEntry(s, key);
    InvCall(s, q);
    EntriesSame(s, t);
    ClientParts(q, call, d, e);
    EntryUntouched(s, t, q, Some(d), key);
    forall x | x in t.conns ensures LinkAt(t, q, x) {
      if x != d {
        InvLink(s, q, x);
        ClientElsewhere(q, call, d, x, s.conns[x]);
        NotWanted(t.calls[q], x, s.conns[x], e);
      }
    }
    forall x | x in t.calls && x != q ensures Linked(x, t.calls[x], d, t.conns[d]) && Apart(t.calls[q], t.calls[x]) {
      InvCall(s, x);
      NewConnLinked(x, s.calls[x], d, key);
      ClientApart(call, s.calls[x], d);
    }
    Rebuild(s, t, Some(q), Some(d), key);
  }
}
