// What every run of the pool and its workers keeps: at most one write of a request,
// exactly one outcome per command, and the bounds of the pool. The invariant is split by
// what it is about: one connection, one call, one list of clients, and how a call fits
// with a connection or with another call.
module ClientPoolSafety {
  import opened Results
  import opened ClientPool

  // ----- the invariant, piece by piece ---------------------------------------

  // The worker is handling `cmd`, or will: it is queued.
  ghost predicate Pending(conn: Conn, cmd: Command) {
    cmd in conn.queue || (Unanswered(conn.worker) && conn.worker.cmd == cmd)
  }

  ghost predicate InWorker(w: Worker, cmd: Command) {
    Busy(w) && w.cmd == cmd
  }

  // At most one permit, at most one queued command, never both a queued command
  // and a busy worker, and the permit is out whenever either is there.
  ghost predicate ConnOk(conn: Conn) {
    conn.available <= 1 && |conn.queue| <= 1
    && (conn.queue != [] || Busy(conn.worker) ==> conn.available == 0)
    && (Busy(conn.worker) ==> conn.queue == [])
    && (conn.shut ==> ChannelClosed(conn.worker))
    && (conn.worker.Gone? ==> conn.shut && conn.queue == [])
  }

  function PhaseConn(p: Phase): Option<ConnId> {
    match p
    case HasClient(c) => Some(c)
    case HasPermit(c) => Some(c)
    case Waiting(c) => Some(c)
    case Reserved(c, _) => Some(c)
    case Sent(c, _, _) => Some(c)
    case Removing(c, _, _) => Some(c)
    case _ => None
  }

  // Only one outcome per attempt, NotSent for all but the last.
  ghost predicate HistoryOk(call: Call) {
    && (forall k :: k in call.outcomes ==> k < |call.attempts| && |call.outcomes[k]| == 1)
    && (forall k :: 0 <= k < |call.attempts| - 1 ==> k in call.outcomes && call.outcomes[k] == [NotSent])
    && |call.writes| <= 1
    && (call.writes != [] ==> call.attempts != [] && call.writes == [|call.attempts| - 1])
    && (call.writes != [] && Last(call) in call.outcomes ==> call.outcomes[Last(call)] != [NotSent])
  }

  function Last(call: Call): int {
    |call.attempts| - 1
  }

  // Every command this call has queued came back unsent.
  ghost predicate AllReturned(call: Call) {
    call.writes == [] && (call.attempts != [] ==> Last(call) in call.outcomes && call.outcomes[Last(call)] == [NotSent])
  }

  ghost predicate PhaseOk(call: Call) {
    match call.phase
    case Sent(c, _, mail) =>
      call.attempts != [] && call.attempts[Last(call)] == c
      && (mail == None <==> Last(call) !in call.outcomes)
      && (mail.Some? ==> call.outcomes[Last(call)] == [mail.value])
    case Removing(_, _, failed) => failed || AllReturned(call)
    case Finished(_) => true
    case Cancelled => true
    case _ => AllReturned(call)
  }

  // The call has dialled, and may not dial again.
  ghost predicate HasDialled(p: Phase) {
    p.Connecting? || p.HasClient? || p.HasPermit? || (p.Reserved? && !p.reused) || (p.Sent? && !p.reused)
    || (p.Removing? && !p.reused)
  }

  ghost predicate DialsOk(call: Call) {
    call.dials <= 1
    && (HasDialled(call.phase) ==> call.dials == 1)
    && (call.dials == 1 ==> HasDialled(call.phase) || call.phase.Finished? || call.phase.Cancelled?)
  }

  ghost predicate CallOk(call: Call) {
    HistoryOk(call) && PhaseOk(call) && DialsOk(call)
  }

  ghost predicate EntryOk(e: Entry) {
    |e.clients| <= MAX_CONNECTIONS_PER_KEY && Distinct(e.clients)
  }

  ghost predicate Distinct(clients: seq<ConnId>) {
    forall i, j :: 0 <= i < j < |clients| ==> clients[i] != clients[j]
  }

  // What a call's queued commands and a connection know of each other: a command on
  // its way is the call's last, unanswered, and unwritten until the worker says so;
  // and no unanswered command is lost.
  ghost predicate HistoryLinked(q: CallId, call: Call, c: ConnId, conn: Conn) {
    && (forall k: nat :: Pending(conn, Command(q, k)) ==>
          k == Last(call) && call.attempts[k] == c && k !in call.outcomes)
    && (forall k: nat :: Command(q, k) in conn.queue || conn.worker == Taken(Command(q, k)) ==> call.writes == [])
    && (call.attempts != [] && call.attempts[Last(call)] == c && Last(call) !in call.outcomes ==>
          Pending(conn, Command(q, Last(call))))
  }

  // What a caller's phase says of a connection: the permit in its hands is out, a
  // client nobody else has is untouched, and a connection that failed the call is
  // leaving its loop.
  ghost predicate PhaseLinked(p: Phase, key: PoolKey, c: ConnId, conn: Conn) {
    && (HoldsPermit(p) && p.conn == c ==> conn.available == 0 && conn.queue == [] && !Busy(conn.worker))
    && (p.HasClient? && p.conn == c ==> conn.available == 1 && conn.queue == [] && !Busy(conn.worker))
    && (p.Sent? && p.conn == c && p.mail.Some? && !p.mail.value.Response? ==> OutOfLoop(conn.worker))
    && (p.Removing? && p.conn == c ==> OutOfLoop(conn.worker))
    && (PhaseConn(p) == Some(c) ==> conn.key == key)
  }

  ghost predicate Linked(q: CallId, call: Call, c: ConnId, conn: Conn) {
    HistoryLinked(q, call, c, conn) && PhaseLinked(call.phase, call.key, c, conn)
  }

  // Two calls never hold the same permit, and a fresh client is known to one call.
  ghost predicate Apart(one: Call, other: Call) {
    (HoldsPermit(one.phase) && HoldsPermit(other.phase) ==> one.phase.conn != other.phase.conn)
    && (one.phase.HasClient? || one.phase.HasPermit? ==> PhaseConn(other.phase) != Some(one.phase.conn))
    && (other.phase.HasClient? || other.phase.HasPermit? ==> PhaseConn(one.phase) != Some(other.phase.conn))
  }

  // The connect lock of a key, and room kept for the connection being made.
  ghost predicate LockOk(q: CallId, call: Call, e: Entry) {
    (HoldsLock(call.phase) <==> e.lock == Some(q))
    && (HoldsLock(call.phase) && !call.phase.HasLock? ==> |e.clients| < MAX_CONNECTIONS_PER_KEY)
    && (call.phase.HasClient? || call.phase.HasPermit? ==> call.phase.conn !in e.clients)
  }

  ghost predicate InUse(conn: Conn) {
    conn.queue != [] || Busy(conn.worker)
  }

  // A connection with a request on it, or that a caller is about to use, is in its
  // pool entry unless it is leaving its loop.
  ghost predicate Pooled(c: ConnId, conn: Conn, e: Entry) {
    InUse(conn) && !OutOfLoop(conn.worker) ==> c in e.clients
  }

  ghost predicate WantsConn(p: Phase, c: ConnId) {
    (p.Waiting? || p.Reserved?) && p.conn == c
  }

  ghost predicate PooledFor(call: Call, c: ConnId, conn: Conn, e: Entry) {
    WantsConn(call.phase, c) && !OutOfLoop(conn.worker) ==> c in e.clients
  }

  // ----- the invariant of a system -------------------------------------------

  ghost predicate CallAt(s: System, q: CallId)
    requires q in s.calls
  {
    var call := s.calls[q];
    CallOk(call) && LockOk(q, call, EntryOf(s, call.key))
    && (PhaseConn(call.phase).Some? ==> PhaseConn(call.phase).value in s.conns)
    && (forall k :: 0 <= k < |call.attempts| ==> call.attempts[k] in s.conns)
  }

  ghost predicate ConnAt(s: System, c: ConnId)
    requires c in s.conns
  {
    var conn := s.conns[c];
    ConnOk(conn) && Pooled(c, conn, EntryOf(s, conn.key))
    && (forall cmd :: cmd in conn.queue || InWorker(conn.worker, cmd) ==> cmd.call in s.calls)
  }

  ghost predicate EntryAt(s: System, key: PoolKey) {
    var e := EntryOf(s, key);
    EntryOk(e)
    && (forall c :: c in e.clients ==> c in s.conns && s.conns[c].key == key)
    && (e.lock.Some? ==> e.lock.value in s.calls && s.calls[e.lock.value].key == key)
  }

  ghost predicate LinkAt(s: System, q: CallId, c: ConnId)
    requires q in s.calls && c in s.conns
  {
    Linked(q, s.calls[q], c, s.conns[c]) && PooledFor(s.calls[q], c, s.conns[c], EntryOf(s, s.calls[q].key))
  }

  ghost predicate ApartAt(s: System, q: CallId, other: CallId)
    requires q in s.calls && other in s.calls
  {
    q != other ==> Apart(s.calls[q], s.calls[other])
  }

  ghost predicate Inv(s: System) {
    && (forall q :: q in s.calls ==> CallAt(s, q))
    && (forall c :: c in s.conns ==> ConnAt(s, c))
    && (forall key :: EntryAt(s, key))
    && (forall q, c :: q in s.calls && c in s.conns ==> LinkAt(s, q, c))
    && (forall q, other :: q in s.calls && other in s.calls ==> ApartAt(s, q, other))
  }

  // ----- changing one call, one connection and one entry ---------------------

  // Only call `q`, connection `c` (where there is one) and the entry of `key` may
  // differ; nothing changes its key or disappears.
  ghost predicate Only(s: System, t: System, q: Option<CallId>, c: Option<ConnId>, key: PoolKey) {
    && s.calls.Keys <= t.calls.Keys <= s.calls.Keys + (if q.Some? then {q.value} else {})
    && s.conns.Keys <= t.conns.Keys <= s.conns.Keys + (if c.Some? then {c.value} else {})
    && (forall x :: x in s.calls && Some(x) != q ==> t.calls[x] == s.calls[x])
    && (forall x :: x in s.conns && Some(x) != c ==> t.conns[x] == s.conns[x])
    && (forall x :: x in s.calls ==> t.calls[x].key == s.calls[x].key)
    && (forall x :: x in s.conns ==> t.conns[x].key == s.conns[x].key)
    && (forall k :: k != key ==> EntryOf(t, k) == EntryOf(s, k))
  }

  // An entry whose lost clients are leaving their loops, whose lock changes hands
  // only through call `q`, and which grows only while `q` holds that lock.
  ghost predicate Adjusts(s: System, t: System, q: Option<CallId>, key: PoolKey) {
    var e, f := EntryOf(s, key), EntryOf(t, key);
    ((q.Some? && e.lock == q) || (|f.clients| <= |e.clients| && forall x :: x in f.clients ==> x in e.clients))
    && (forall x :: x in e.clients && x !in f.clients ==> x in t.conns && OutOfLoop(t.conns[x].worker))
    && (f.lock == e.lock || ((e.lock.None? || e.lock == q) && (f.lock.None? || f.lock == q)))
  }

  lemma LockKept(s: System, t: System, q: Option<CallId>, x: CallId, call: Call, key: PoolKey)
    requires Adjusts(s, t, q, key) && Some(x) != q && LockOk(x, call, EntryOf(s, key))
    ensures LockOk(x, call, EntryOf(t, key))
  {
  }

  // Rechecking what was touched rechecks the whole.
  ghost predicate Rechecked(s: System, t: System, q: Option<CallId>, c: Option<ConnId>, key: PoolKey) {
    && Only(s, t, q, c, key) && Adjusts(s, t, q, key) && EntryAt(t, key)
    && (q.Some? && q.value in t.calls ==> CallAt(t, q.value))
    && (c.Some? && c.value in t.conns ==> ConnAt(t, c.value))
    && (forall x :: q.Some? && q.value in t.calls && x in t.conns ==> LinkAt(t, q.value, x))
    && (forall x :: c.Some? && c.value in t.conns && x in t.calls && Some(x) != q ==>
          Linked(x, t.calls[x], c.value, t.conns[c.value]))
    && (c.Some? && c.value in s.conns && OutOfLoop(s.conns[c.value].worker) ==> OutOfLoop(t.conns[c.value].worker))
    && (forall x :: q.Some? && q.value in t.calls && x in t.calls && x != q.value ==> Apart(t.calls[q.value], t.calls[x]))
  }

  lemma RebuildCalls(s: System, t: System, q: Option<CallId>, c: Option<ConnId>, key: PoolKey, x: CallId)
    requires Inv(s) && Rechecked(s, t, q, c, key) && x in t.calls
    ensures CallAt(t, x)
  {
    hide CallOk, ConnOk, EntryOk, Linked, Apart, OutOfLoop, PhaseConn, LockOk, InWorker, Pooled, PooledFor, Minus,
         LinkAt, ConnAt, EntryAt, ApartAt, EntryOf, Adjusts;
    if Some(x) != q {
      assert CallAt(s, x);
      if t.calls[x].key == key {
        LockKept(s, t, q, x, t.calls[x], key);
      }
    }
  }

  lemma RebuildConns(s: System, t: System, q: Option<CallId>, c: Option<ConnId>, key: PoolKey, x: ConnId)
    requires Inv(s) && Rechecked(s, t, q, c, key) && x in t.conns
    ensures ConnAt(t, x)
  {
    hide CallOk, ConnOk, EntryOk, Linked, Apart, OutOfLoop, PhaseConn, LockOk, InWorker, Pooled, PooledFor, Minus,
         LinkAt, CallAt, EntryAt, ApartAt, EntryOf, Adjusts;
    if Some(x) != c {
      assert ConnAt(s, x);
      StillPooled(s, t, q, x, key);
    }
  }

  lemma RebuildEntries(s: System, t: System, q: Option<CallId>, c: Option<ConnId>, key: PoolKey, k: PoolKey)
    requires Inv(s) && Rechecked(s, t, q, c, key)
    ensures EntryAt(t, k)
  {
    hide CallOk, ConnOk, EntryOk, Linked, Apart, OutOfLoop, PhaseConn, LockOk, InWorker, Pooled, PooledFor, Minus,
         LinkAt, CallAt, ConnAt, ApartAt, EntryOf, Adjusts;
    if k != key {
      assert EntryAt(s, k);
    }
  }

  lemma RebuildLinks(s: System, t: System, q: Option<CallId>, c: Option<ConnId>, key: PoolKey, x: CallId, y: ConnId)
    requires Inv(s) && Rechecked(s, t, q, c, key) && x in t.calls && y in t.conns
    ensures LinkAt(t, x, y)
  {
    hide CallOk, ConnOk, EntryOk, Linked, Apart, OutOfLoop, PhaseConn, LockOk, InWorker, Pooled, PooledFor, Minus,
         ConnAt, EntryAt, ApartAt, EntryOf, Adjusts;
    if Some(x) != q {
      if y in s.conns {
        assert LinkAt(s, x, y);
        StillPooledFor(s, t, q, x, y, key);
      } else {
        assert CallAt(s, x);
        NotWanted(t.calls[x], y, t.conns[y], EntryOf(t, t.calls[x].key));
      }
    }
  }

  lemma Rebuild(s: System, t: System, q: Option<CallId>, c: Option<ConnId>, key: PoolKey)
    requires Inv(s) && Rechecked(s, t, q, c, key)
    ensures Inv(t)
  {
    hide LinkAt, CallAt, ConnAt, EntryAt, Linked, Apart, EntryOf, Adjusts;
    forall x | x in t.calls ensures CallAt(t, x) {
      RebuildCalls(s, t, q, c, key, x);
    }
    forall x | x in t.conns ensures ConnAt(t, x) {
      RebuildConns(s, t, q, c, key, x);
    }
    forall k ensures EntryAt(t, k) {
      RebuildEntries(s, t, q, c, key, k);
    }
    forall x, y | x in t.calls && y in t.conns ensures LinkAt(t, x, y) {
      RebuildLinks(s, t, q, c, key, x, y);
    }
    forall x, y | x in t.calls && y in t.calls ensures ApartAt(t, x, y) {
      if Some(x) != q && Some(y) != q {
        assert ApartAt(s, x, y);
      } else if Some(x) != q {
        ApartSymmetric(t.calls[q.value], t.calls[x]);
      }
    }
  }

  lemma ApartSymmetric(one: Call, other: Call)
    requires Apart(one, other)
    ensures Apart(other, one)
  {
  }

  lemma NotWanted(call: Call, c: ConnId, conn: Conn, e: Entry)
    requires PhaseConn(call.phase) != Some(c)
    ensures PooledFor(call, c, conn, e)
  {
  }

  lemma StillPooled(s: System, t: System, q: Option<CallId>, x: ConnId, key: PoolKey)
    requires x in s.conns && x in t.conns && t.conns[x] == s.conns[x]
    requires Adjusts(s, t, q, key) && (forall k :: k != key ==> EntryOf(t, k) == EntryOf(s, k))
    requires Pooled(x, s.conns[x], EntryOf(s, s.conns[x].key))
    ensures Pooled(x, t.conns[x], EntryOf(t, t.conns[x].key))
  {
    hide EntryOf, OutOfLoop, InUse;
  }

  lemma StillPooledFor(s: System, t: System, q: Option<CallId>, x: CallId, y: ConnId, key: PoolKey)
    requires x in s.calls && x in t.calls && t.calls[x] == s.calls[x] && y in s.conns && y in t.conns
    requires Adjusts(s, t, q, key) && (forall k :: k != key ==> EntryOf(t, k) == EntryOf(s, k))
    requires OutOfLoop(s.conns[y].worker) ==> OutOfLoop(t.conns[y].worker)
    requires PooledFor(s.calls[x], y, s.conns[y], EntryOf(s, s.calls[x].key))
    ensures PooledFor(t.calls[x], y, t.conns[y], EntryOf(t, t.calls[x].key))
  {
    hide EntryOf, OutOfLoop;
  }

  // The invariant at one place.
  lemma InvCall(s: System, q: CallId)
    requires Inv(s) && q in s.calls
    ensures CallAt(s, q)
  {
    hide CallAt, ConnAt, EntryAt, LinkAt, ApartAt;
  }

  lemma InvConn(s: System, c: ConnId)
    requires Inv(s) && c in s.conns
    ensures ConnAt(s, c)
  {
    hide CallAt, ConnAt, EntryAt, LinkAt, ApartAt;
  }

  lemma InvEntry(s: System, key: PoolKey)
    requires Inv(s)
    ensures EntryAt(s, key)
  {
    hide CallAt, ConnAt, EntryAt, LinkAt, ApartAt;
  }

  lemma InvLink(s: System, q: CallId, c: ConnId)
    requires Inv(s) && q in s.calls && c in s.conns
    ensures LinkAt(s, q, c)
  {
    hide CallAt, ConnAt, EntryAt, LinkAt, ApartAt;
  }

  lemma InvApart(s: System, q: CallId, other: CallId)
    requires Inv(s) && q in s.calls && other in s.calls
    ensures ApartAt(s, q, other)
  {
    hide CallAt, ConnAt, EntryAt, LinkAt, ApartAt;
  }

  lemma EntriesSame(s: System, t: System)
    requires s.entries == t.entries
    ensures forall k :: EntryOf(t, k) == EntryOf(s, k)
  {
  }
}
