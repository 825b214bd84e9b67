// The list of clients of one pool key: how a caller chooses among them.
module PoolEntries {
  import opened Results
  import opened ClientPool

  datatype PoolChoice = Reserve(conn: ConnId) | Wait(conn: ConnId) | Connect

  // A permit can be taken from the connection.
  predicate Free(conns: map<ConnId, Conn>, c: ConnId) {
    c in conns && conns[c].available > 0 && !conns[c].shut
  }

  predicate Closed(conns: map<ConnId, Conn>, c: ConnId) {
    c in conns && ChannelClosed(conns[c].worker)
  }

  predicate NoneFree(conns: map<ConnId, Conn>, clients: seq<ConnId>) {
    forall i :: 0 <= i < |clients| ==> !Free(conns, clients[i])
  }

  predicate FirstFree(conns: map<ConnId, Conn>, clients: seq<ConnId>, c: ConnId) {
    exists i :: 0 <= i < |clients| && clients[i] == c && Free(conns, c) && NoneFree(conns, clients[..i])
  }

  // The right choice when nothing moves meanwhile: closed clients go, in order the
  // first free one is reserved, below the limit a new one is dialled, and otherwise
  // the clients are waited for in turn.
  predicate RightChoice(conns: map<ConnId, Conn>, before: Entry, kept: seq<ConnId>, next: nat, choice: PoolChoice) {
    kept == Minus(before.clients, set c | c in before.clients && Closed(conns, c))
    && match choice
       case Reserve(c) => FirstFree(conns, kept, c) && next == before.next
       case Connect => NoneFree(conns, kept) && |kept| < MAX_CONNECTIONS_PER_KEY && next == before.next
       case Wait(c) =>
         NoneFree(conns, kept) && |kept| >= MAX_CONNECTIONS_PER_KEY
         && c == kept[before.next % |kept|] && next == (before.next + 1) % USIZE_LIMIT
  }

  lemma {:induction false} MinusAppend(a: seq<ConnId>, c: ConnId, gone: set<ConnId>)
    ensures Minus(a + [c], gone) == Minus(a, gone) + (if c in gone then [] else [c])
  {
    hide Minus;
    if a == [] {
      MinusOne(c, gone);
      assert a + [c] == [c];
    } else {
      MinusAppend(a[1..], c, gone);
      MinusFirst(a + [c], gone);
      MinusFirst(a, gone);
      assert (a + [c])[1..] == a[1..] + [c];
      JoinThree([a[0]], Minus(a[1..], gone), if c in gone then [] else [c]);
    }
  }

  lemma JoinThree(a: seq<ConnId>, b: seq<ConnId>, c: seq<ConnId>)
    ensures (a + b) + c == a + (b + c)
  {
  }

  lemma MinusOne(c: ConnId, gone: set<ConnId>)
    ensures Minus([c], gone) == if c in gone then [] else [c]
  {
    assert Minus([c][1..], gone) == [];
  }

  lemma MinusFirst(clients: seq<ConnId>, gone: set<ConnId>)
    requires clients != []
    ensures Minus(clients, gone) == (if clients[0] in gone then [] else [clients[0]]) + Minus(clients[1..], gone)
  {
  }

  class PoolEntry {
    var clients: seq<ConnId>
    var next: nat

    constructor ()
      ensures clients == [] && next == 0
    {
      clients := [];
      next := 0;
    }

    // Keep the clients that have not closed.
    method RetainOpen(conns: map<ConnId, Conn>)
      modifies this`clients
      ensures clients == Minus(old(clients), set c | c in old(clients) && Closed(conns, c))
    {
      ghost var gone := set c | c in old(clients) && Closed(conns, c);
      var kept: seq<ConnId> := [];
      for i := 0 to |clients|
        invariant clients == old(clients)
        invariant kept == Minus(clients[..i], gone)
      {
        assert clients[..i + 1] == clients[..i] + [clients[i]];
        MinusAppend(clients[..i], clients[i], gone);
        if !Closed(conns, clients[i]) {
          kept := kept + [clients[i]];
        }
      }
      assert clients[..|clients|] == clients;
      clients := kept;
    }

    method Choose(conns: map<ConnId, Conn>) returns (choice: PoolChoice)
      modifies this
      ensures RightChoice(conns, Entry(old(clients), old(next), None), clients, next, choice)
    {
      hide Minus, Free, Closed;
      RetainOpen(conns);
      for i := 0 to |clients|
        invariant NoneFree(conns, clients[..i])
      {
        if Free(conns, clients[i]) {
          return Reserve(clients[i]);
        }
      }
      assert clients[..|clients|] == clients;
      if |clients| < MAX_CONNECTIONS_PER_KEY {
        return Connect;
      }
      choice := Wait(clients[next % |clients|]);
      next := (next + 1) % USIZE_LIMIT;
    }

    // Forget a client that failed.
    method RemoveIfCurrent(failed: ConnId)
      modifies this`clients
      ensures clients == Minus(old(clients), {failed})
    {
      var kept: seq<ConnId> := [];
      for i := 0 to |clients|
        invariant clients == old(clients)
        invariant kept == Minus(clients[..i], {failed})
      {
        assert clients[..i + 1] == clients[..i] + [clients[i]];
        MinusAppend(clients[..i], clients[i], {failed});
        if clients[i] != failed {
          kept := kept + [clients[i]];
        }
      }
      assert clients[..|clients|] == clients;
      clients := kept;
    }
  }

  function StepOf(q: CallId, dropped: set<ConnId>, choice: PoolChoice): Step {
    match choice
    case Reserve(c) => ChooseReserve(q, dropped, c)
    case Connect => ChooseConnect(q, dropped)
    case Wait(_) => ChooseWait(q, dropped)
  }

  // Every right choice is a step of the pool, and leaves the list and the turn it
  // says. A caller told to connect goes for the lock, or dials if it already holds it.
  lemma ChoiceIsStep(s: System, q: CallId, kept: seq<ConnId>, next: nat, choice: PoolChoice)
    requires q in s.calls && MayChoose(s.calls[q].phase)
    requires RightChoice(s.conns, EntryOf(s, s.calls[q].key), kept, next, choice)
    ensures
      var e := EntryOf(s, s.calls[q].key);
      var step := StepOf(q, (set c | c in e.clients && Closed(s.conns, c)), choice);
      Enabled(s, step)
      && EntryOf(Apply(s, step), s.calls[q].key).clients == kept && EntryOf(Apply(s, step), s.calls[q].key).next == next
      && (choice.Reserve? ==> Apply(s, step).calls[q].phase == Reserved(choice.conn, true))
      && (choice.Wait? ==> Apply(s, step).calls[q].phase == Waiting(choice.conn))
      && (choice.Connect? ==> Apply(s, step).calls[q].phase == if s.calls[q].phase.AtStart? then WantsLock else Connecting)
  {
    hide Minus;
    if choice.Reserve? {
      assert FirstFree(s.conns, kept, choice.conn);
      assert choice.conn in kept;
    }
  }
}
