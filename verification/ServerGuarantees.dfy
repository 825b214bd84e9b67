// The guarantees of a server connection, for every interleaving of its reader and
// its coordinator: the reader's place in the stream, responses in request order, no
// deadlock, and an upgrade that hands over exactly the bytes behind its request.
module ServerGuarantees {
  import opened Bytes
  import opened BodyFraming
  import opened FramingChoice
  import opened CutIndependence
  import opened Pipeline
  import opened ServerProtocol

  // ----- the reader's progress through the stream ----------------------------

  // Whatever decisions are still to come, reading the whole stream is what has been
  // read so far and then the reading of the rest.
  ghost predicate Resumes(config: Config, incoming: seq<bytes>, consumed: seq<bool>, read: seq<Inbound>, at: Place) {
    forall ds: seq<bool> :: ReadRequests(config, [], incoming, consumed + ds) == Continued(read, ReadRequests(config, at.buffer, at.cuts, ds))
  }

  function Continued(read: seq<Inbound>, run: ReaderRun): ReaderRun {
    ReaderRun(read + run.requests, run.exit)
  }

  // The head of the current request was parsed at its origin.
  ghost predicate Parsed(config: Config, origin: Place, ask: Ask, framing: Framing, at: Place) {
    var got := NextHead(config, origin.buffer, origin.cuts);
    got.GotHead? && ask == AskOf(got.head) && framing == ForRequest(got.semantics) && at == Place(got.buffer, got.cuts)
  }

  // A read request whose upgrade is undecided: the rest depends on the answer.
  ghost predicate Pivots(config: Config, origin: Place, inbound: Inbound, at: Place) {
    forall ds: seq<bool> ::
      ReadRequests(config, origin.buffer, origin.cuts, ds) ==
        if ds == [] then ReaderRun([inbound], Closed)
        else if ds[0] then ReaderRun([inbound], Upgraded(at.buffer, at.cuts))
        else if inbound.closeAfter then ReaderRun([inbound], Closed)
        else Continued([inbound], ReadRequests(config, at.buffer, at.cuts, ds[1..]))
  }

  ghost predicate Finished(config: Config, incoming: seq<bytes>, consumed: seq<bool>, read: seq<Inbound>, exit: ReaderExit) {
    ReadRequests(config, [], incoming, consumed) == ReaderRun(read, exit)
  }

  ghost predicate Progress(config: Config, incoming: seq<bytes>, r: Reader) {
    match r.phase
    case AtHead => Resumes(config, incoming, r.consumed, r.read, r.place)
    case Handing(origin, ask, framing) =>
      Resumes(config, incoming, r.consumed, r.read, origin) && Parsed(config, origin, ask, framing, r.place)
    case InBody(origin, ask, framing) =>
      Resumes(config, incoming, r.consumed, r.read, origin) && Parsed(config, origin, ask, framing, r.place)
    case Deciding(origin, inbound) =>
      r.read != [] && r.read[|r.read| - 1] == inbound
      && Resumes(config, incoming, r.consumed, r.read[..|r.read| - 1], origin) && Pivots(config, origin, inbound, r.place)
    case Reporting(_) => true
    case Exited(Failed) => true
    case Exited(exit) =>
      (exit.Upgraded? ==> r.place == Place(exit.readAhead, exit.unread)) && Finished(config, incoming, r.consumed, r.read, exit)
  }

  lemma ResumeAt(config: Config, incoming: seq<bytes>, consumed: seq<bool>, read: seq<Inbound>, at: Place, ds: seq<bool>)
    requires Resumes(config, incoming, consumed, read, at)
    ensures ReadRequests(config, [], incoming, consumed + ds) == Continued(read, ReadRequests(config, at.buffer, at.cuts, ds))
  {
    hide ReadRequests;
  }

  lemma ContinuedTwice(a: seq<Inbound>, b: seq<Inbound>, run: ReaderRun)
    ensures Continued(a, Continued(b, run)) == Continued(a + b, run)
  {
    assert a + (b + run.requests) == (a + b) + run.requests;
  }

  lemma HeadProgress(config: Config, incoming: seq<bytes>, r: Reader)
    requires r.phase.AtHead? && Progress(config, incoming, r)
    ensures Progress(config, incoming, ReaderHead(config, r))
  {
    hide NextHead, NextBody, Resumes, KeepAlive, WantsUpgrade, HandledExpect, ExpectsContinue, Start, ForRequest;
    if NextHead(config, r.place.buffer, r.place.cuts).CleanEnd? {
      ResumeAt(config, incoming, r.consumed, r.read, r.place, []);
      assert r.consumed + [] == r.consumed;
      assert r.read + [] == r.read;
    }
  }

  // A turn of the read loop, given its head and its body.
  lemma TurnOf(config: Config, origin: Place, ask: Ask, framing: Framing, at: Place, ds: seq<bool>)
    requires Parsed(config, origin, ask, framing, at)
    ensures
      var (body, left, later) := NextBody(config.body, Start(framing), at.buffer, at.cuts);
      var inbound := InboundOf(ask, body);
      body.Whole? ==>
        ReadRequests(config, origin.buffer, origin.cuts, ds) ==
          if ask.wantsUpgrade && ds == [] then ReaderRun([inbound], Closed)
          else if ask.wantsUpgrade && ds[0] then ReaderRun([inbound], Upgraded(left, later))
          else if ask.closeAfter then ReaderRun([inbound], Closed)
          else Continued([inbound], ReadRequests(config, left, later, if ask.wantsUpgrade then ds[1..] else ds))
  {
    hide NextHead, NextBody, KeepAlive, WantsUpgrade, HandledExpect, ExpectsContinue, Start, ForRequest, Unread;
  }

  lemma BodyProgress(config: Config, incoming: seq<bytes>, r: Reader)
    requires r.phase.InBody? && Progress(config, incoming, r)
    ensures Progress(config, incoming, ReaderBody(config, r))
  {
    hide NextBody, ReadRequests, Parsed, Start, Resumes, Pivots;
    var (body, left, later) := NextBody(config.body, Start(r.phase.framing), r.place.buffer, r.place.cuts);
    if body.Whole? {
      var inbound := InboundOf(r.phase.ask, body);
      var next := ReaderBody(config, r);
      assert next.read[..|r.read|] == r.read;
      if r.phase.ask.wantsUpgrade {
        BodyPivots(config, r.phase.origin, r.phase.ask, r.phase.framing, r.place);
      } else if r.phase.ask.closeAfter {
        TurnOf(config, r.phase.origin, r.phase.ask, r.phase.framing, r.place, []);
        ResumeAt(config, incoming, r.consumed, r.read, r.phase.origin, []);
        assert r.consumed + [] == r.consumed;
      } else {
        BodyResumes(config, incoming, r);
      }
    }
  }

  lemma BodyPivots(config: Config, origin: Place, ask: Ask, framing: Framing, at: Place)
    requires Parsed(config, origin, ask, framing, at) && ask.wantsUpgrade
    ensures
      var (body, left, later) := NextBody(config.body, Start(framing), at.buffer, at.cuts);
      body.Whole? ==> Pivots(config, origin, InboundOf(ask, body), Place(left, later))
  {
    hide NextBody, ReadRequests, Parsed, Start;
    var (body, left, later) := NextBody(config.body, Start(framing), at.buffer, at.cuts);
    if body.Whole? {
      forall ds: seq<bool>
        ensures ReadRequests(config, origin.buffer, origin.cuts, ds) ==
          if ds == [] then ReaderRun([InboundOf(ask, body)], Closed)
          else if ds[0] then ReaderRun([InboundOf(ask, body)], Upgraded(left, later))
          else if ask.closeAfter then ReaderRun([InboundOf(ask, body)], Closed)
          else Continued([InboundOf(ask, body)], ReadRequests(config, left, later, ds[1..]))
      {
        TurnOf(config, origin, ask, framing, at, ds);
      }
    }
  }

  lemma BodyResumes(config: Config, incoming: seq<bytes>, r: Reader)
    requires r.phase.InBody? && Progress(config, incoming, r) && !r.phase.ask.wantsUpgrade && !r.phase.ask.closeAfter
    ensures
      var (body, left, later) := NextBody(config.body, Start(r.phase.framing), r.place.buffer, r.place.cuts);
      body.Whole? ==> Resumes(config, incoming, r.consumed, r.read + [InboundOf(r.phase.ask, body)], Place(left, later))
  {
    hide NextBody, ReadRequests, Parsed, Start;
    var (body, left, later) := NextBody(config.body, Start(r.phase.framing), r.place.buffer, r.place.cuts);
    if body.Whole? {
      var inbound := InboundOf(r.phase.ask, body);
      forall ds: seq<bool>
        ensures ReadRequests(config, [], incoming, r.consumed + ds)
             == Continued(r.read + [inbound], ReadRequests(config, left, later, ds))
      {
        TurnOf(config, r.phase.origin, r.phase.ask, r.phase.framing, r.place, ds);
        ResumeAt(config, incoming, r.consumed, r.read, r.phase.origin, ds);
        ContinuedTwice(r.read, [inbound], ReadRequests(config, left, later, ds));
      }
    }
  }

  lemma PivotAt(config: Config, origin: Place, inbound: Inbound, at: Place, ds: seq<bool>)
    requires Pivots(config, origin, inbound, at)
    ensures
      ReadRequests(config, origin.buffer, origin.cuts, ds) ==
        if ds == [] then ReaderRun([inbound], Closed)
        else if ds[0] then ReaderRun([inbound], Upgraded(at.buffer, at.cuts))
        else if inbound.closeAfter then ReaderRun([inbound], Closed)
        else Continued([inbound], ReadRequests(config, at.buffer, at.cuts, ds[1..]))
  {
    hide ReadRequests;
  }

  lemma DecideProgress(config: Config, incoming: seq<bytes>, r: Reader, decisions: seq<bool>)
    requires r.phase.Deciding? && Progress(config, incoming, r)
    ensures Progress(config, incoming, ReaderDecides(r, decisions))
  {
    hide ReadRequests, Resumes, Pivots;
    var (origin, inbound) := (r.phase.origin, r.phase.inbound);
    var before := r.read[..|r.read| - 1];
    assert before + [inbound] == r.read;
    if |decisions| <= |r.consumed| {
      ResumeAt(config, incoming, r.consumed, before, origin, []);
      PivotAt(config, origin, inbound, r.place, []);
      assert r.consumed + [] == r.consumed;
    } else {
      var answer := decisions[|r.consumed|];
      ResumeAt(config, incoming, r.consumed, before, origin, [answer]);
      PivotAt(config, origin, inbound, r.place, [answer]);
      if !answer && !inbound.closeAfter {
        RefusedResumes(config, incoming, r);
      }
    }
  }

  lemma RefusedResumes(config: Config, incoming: seq<bytes>, r: Reader)
    requires r.phase.Deciding? && Progress(config, incoming, r) && !r.phase.inbound.closeAfter
    ensures Resumes(config, incoming, r.consumed + [false], r.read, r.place)
  {
    hide ReadRequests;
    var (origin, inbound) := (r.phase.origin, r.phase.inbound);
    var before := r.read[..|r.read| - 1];
    assert before + [inbound] == r.read;
    forall ds: seq<bool>
      ensures ReadRequests(config, [], incoming, (r.consumed + [false]) + ds)
           == Continued(r.read, ReadRequests(config, r.place.buffer, r.place.cuts, ds))
    {
      assert (r.consumed + [false]) + ds == r.consumed + ([false] + ds);
      ResumeAt(config, incoming, r.consumed, before, origin, [false] + ds);
      PivotAt(config, origin, inbound, r.place, [false] + ds);
      assert ([false] + ds)[1..] == ds;
      ContinuedTwice(before, [inbound], ReadRequests(config, r.place.buffer, r.place.cuts, ds));
    }
  }

  // ----- runs ----------------------------------------------------------------

  // A verdict is the one the coordinator and the reader came to.
  ghost predicate VerdictOk(s: Server) {
    s.verdict.Running? || (s.coordinator.Ended? && s.verdict == Verdict_(s))
  }

  lemma ServerStepKeeps(config: Config, capacity: Capacity, incoming: seq<bytes>, s: Server, step: ServerStep)
    requires ServerInv(s) && Progress(config, incoming, s.reader) && ServerEnabled(capacity, s, step)
    ensures
      var t := ServerApply(config, capacity, s, step);
      ServerInv(t) && Progress(config, incoming, t.reader) && VerdictOk(t)
  {
    KeepAll(config, capacity, s, step);
    ProgressKept(config, capacity, incoming, s, step);
    VerdictKept(config, capacity, s, step);
  }

  lemma VerdictKept(config: Config, capacity: Capacity, s: Server, step: ServerStep)
    requires ServerEnabled(capacity, s, step)
    ensures VerdictOk(ServerApply(config, capacity, s, step))
  {
    hide ReaderHead, ReaderBody, ReaderDecides;
  }

  lemma KeepAll(config: Config, capacity: Capacity, s: Server, step: ServerStep)
    requires ServerInv(s) && ServerEnabled(capacity, s, step)
    ensures ServerInv(ServerApply(config, capacity, s, step))
  {
    hide QueueOk, ReadOk, UpgradeOk, EndOk, ServerApply, ServerEnabled, DecisionsOk;
    KeepQueue(config, capacity, s, step);
    KeepRead(config, capacity, s, step);
    KeepDecisions(config, capacity, s, step);
    KeepUpgrade(config, capacity, s, step);
    KeepEnd(config, capacity, s, step);
  }

  lemma ProgressKept(config: Config, capacity: Capacity, incoming: seq<bytes>, s: Server, step: ServerStep)
    requires Progress(config, incoming, s.reader) && ServerEnabled(capacity, s, step)
    ensures Progress(config, incoming, ServerApply(config, capacity, s, step).reader)
  {
    hide ReaderHead, ReaderBody, ReaderDecides, Resumes, Parsed, Pivots, ServerProtocol.Verdict_, ReadRequests;
    match step
    case ReadHeadStep => HeadProgress(config, incoming, s.reader);
    case ReadBodyStep => BodyProgress(config, incoming, s.reader);
    case Decide => DecideProgress(config, incoming, s.reader, s.decisions);
    case _ =>
  }

  lemma {:induction false} ServerRunKeeps(config: Config, capacity: Capacity, incoming: seq<bytes>, s: Server, steps: seq<ServerStep>)
    requires ServerInv(s) && Progress(config, incoming, s.reader) && VerdictOk(s) && ServerRun(config, capacity, s, steps)
    ensures
      var t := ServerAfter(config, capacity, s, steps);
      ServerInv(t) && Progress(config, incoming, t.reader) && VerdictOk(t)
    decreases |steps|
  {
    hide ServerInv, Progress, VerdictOk, ServerEnabled, ServerApply;
    if steps != [] {
      ServerStepKeeps(config, capacity, incoming, s, steps[0]);
      ServerRunKeeps(config, capacity, incoming, ServerApply(config, capacity, s, steps[0]), steps[1..]);
    }
  }

  lemma ReachableServer(config: Config, capacity: Capacity, incoming: seq<bytes>, steps: seq<ServerStep>)
    requires ServerRun(config, capacity, StartServer(incoming), steps)
    ensures
      var t := ServerAfter(config, capacity, StartServer(incoming), steps);
      ServerInv(t) && Progress(config, incoming, t.reader) && VerdictOk(t)
  {
    var s := StartServer(incoming);
    assert ServerInv(s);
    assert Progress(config, incoming, s.reader) by {
      hide ReadRequests;
      forall ds: seq<bool>
        ensures ReadRequests(config, [], incoming, [] + ds) == Continued([], ReadRequests(config, [], incoming, ds))
      {
        assert [] + ds == ds;
        assert [] + ReadRequests(config, [], incoming, ds).requests == ReadRequests(config, [], incoming, ds).requests;
      }
    }
    hide ServerInv, Progress, VerdictOk;
    ServerRunKeeps(config, capacity, incoming, s, steps);
  }

  // ----- main results --------------------------------------------------------

  // Final responses are written in request order, one per request, and only for
  // requests handed over; the reader never leaves for an upgrade the coordinator
  // did not accept.
  lemma ResponsesInOrder(config: Config, capacity: Capacity, incoming: seq<bytes>, steps: seq<ServerStep>)
    requires ServerRun(config, capacity, StartServer(incoming), steps)
    ensures
      var s := ServerAfter(config, capacity, StartServer(incoming), steps);
      |s.responses| <= |s.handed| && (forall i :: 0 <= i < |s.responses| ==> s.responses[i] == i)
      && !s.verdict.UnmatchedUpgrade?
  {
    hide ServerAfter, ServerRun, ReadOk, DecisionsOk;
    ReachableServer(config, capacity, incoming, steps);
  }

  // The reader can move, unless it is done, whenever the queue has been emptied and
  // no answer is missing.
  lemma ReaderCanMove(capacity: Capacity, s: Server) returns (step: ServerStep)
    requires capacity.pipeline > 0 && ServerInv(s) && s.verdict.Running? && s.queue == [] && !s.reader.phase.Exited?
    requires s.taken == |s.responses|
    ensures ServerEnabled(capacity, s, step) && !step.ReadFails? && !step.ServeFails?
  {
    hide Wanting, ReadOk, UpgradeOk, EndOk;
    assert s.handed[..|s.handed|] == s.handed;
    step := match s.reader.phase
            case AtHead => ReadHeadStep
            case Handing(_, _, _) => HandOver
            case InBody(_, _, _) => if s.body.holding then PassFrame else ReadBodyStep
            case Deciding(_, _) => Decide
            case _ => Report;
  }

  lemma CanMove(capacity: Capacity, s: Server) returns (step: ServerStep)
    requires capacity.pipeline > 0 && ServerInv(s) && s.verdict.Running?
    ensures ServerEnabled(capacity, s, step) && !step.ReadFails? && !step.ServeFails?
  {
    hide DecisionsOk, ReadOk, EndOk;
    match s.coordinator
    case Serving(item) => step := if item.Request? then Respond(false, true) else AnswerFault(true);
    case Waiting =>
      if s.queue != [] {
        step := Receive;
      } else if s.reader.phase.Exited? {
        step := ReceiveNone;
      } else {
        step := ReaderCanMove(capacity, s);
      }
    case Ended(how) =>
      if how.Stopped? || how.Broke? || s.reader.phase.Exited? {
        step := Join;
      } else if how.AllServed? {
        step := Join;
        AllServedIsDone(s);
      } else {
        step := ReaderCanMove(capacity, s);
      }
  }

  lemma AllServedIsDone(s: Server)
    requires EndOk(s) && s.coordinator == Ended(AllServed)
    ensures s.reader.phase.Exited?
  {
  }

  // With a queue of at least one place the two tasks never wait for each other, be it
  // over the queue, over an upgrade or over the channel of a body, however small: until
  // there is a verdict, one of them can move.
  lemma NoDeadlock(config: Config, capacity: Capacity, incoming: seq<bytes>, steps: seq<ServerStep>)
    returns (step: ServerStep)
    requires capacity.pipeline > 0 && ServerRun(config, capacity, StartServer(incoming), steps)
    requires ServerAfter(config, capacity, StartServer(incoming), steps).verdict.Running?
    ensures ServerEnabled(capacity, ServerAfter(config, capacity, StartServer(incoming), steps), step)
    ensures !step.ReadFails? && !step.ServeFails?
  {
    hide ServerAfter, ServerRun, ServerInv, ServerEnabled;
    ReachableServer(config, capacity, incoming, steps);
    step := CanMove(capacity, ServerAfter(config, capacity, StartServer(incoming), steps));
  }

  lemma UpgradedState(config: Config, capacity: Capacity, incoming: seq<bytes>, steps: seq<ServerStep>)
    requires ServerRun(config, capacity, StartServer(incoming), steps)
    requires ServerAfter(config, capacity, StartServer(incoming), steps).verdict.UpgradedTo?
    ensures
      var s := ServerAfter(config, capacity, StartServer(incoming), steps);
      |s.responses| == |s.reader.read|
      && ReadRequests(config, [], incoming, s.decisions)
         == ReaderRun(s.reader.read, Upgraded(s.verdict.readAhead, s.verdict.unread))
  {
    hide ServerAfter, ServerRun, ReadRequests, DecisionsOk, Resumes, Pivots, Parsed;
    ReachableServer(config, capacity, incoming, steps);
    var s := ServerAfter(config, capacity, StartServer(incoming), steps);
    assert s.reader.phase == Exited(Upgraded(s.verdict.readAhead, s.verdict.unread));
  }

  // The list was read up to its n-th request, whose upgrade was accepted, and these
  // bytes are the rest of it and what follows.
  ghost predicate UpgradedAfter(config: Config, rs: seq<Outbound>, decisions: seq<bool>, later: bytes, read: seq<Inbound>,
                                rest: bytes)
    requires WriteRequests(config.rules, rs).Ok?
  {
    0 < |read| <= |rs| && |AllSeen(config.rules, rs)| == |rs|
    && EndingOf(rs, decisions) == StopsAfter(|read| - 1, true)
    && read == AllSeen(config.rules, rs)[..|read|]
    && WriteRequests(config.rules, rs[|read|..]).Ok?
    && rest == WriteRequests(config.rules, rs[|read|..]).value + later
  }

  lemma NothingAhead(cuts: seq<bytes>)
    ensures Unread([], cuts) == Concat(cuts)
  {
  }

  // The reader goes through the list and beyond ...
  lemma ReadsOn(config: Config, rs: seq<Outbound>, cuts: seq<bytes>, decisions: seq<bool>, later: bytes)
    requires AllSendable(config, rs) && WriteRequests(config.rules, rs).Ok? && EndingOf(rs, decisions).NeverStops?
    requires Concat(cuts) == WriteRequests(config.rules, rs).value + later && StartsWhole(config, rs, cuts, |later|)
    ensures AllSeen(config.rules, rs) <= ReadRequests(config, [], cuts, decisions).requests
  {
    hide ReadRequests, WriteRequests, AllSeen, AllSendable, EndingOf, StartsWhole, Concat, DecisionsLeft, Unread;
    NothingAhead(cuts);
    var _, _ := PipeliningAny(config, rs, [], cuts, decisions, later);
  }

  // ... or stops at one of its requests.
  lemma ReadsUpTo(config: Config, rs: seq<Outbound>, cuts: seq<bytes>, decisions: seq<bool>, later: bytes)
    requires AllSendable(config, rs) && WriteRequests(config.rules, rs).Ok? && EndingOf(rs, decisions).StopsAfter?
    requires Concat(cuts) == WriteRequests(config.rules, rs).value + later && StartsWhole(config, rs, cuts, |later|)
    requires ReadRequests(config, [], cuts, decisions).exit.Upgraded?
    ensures
      var run := ReadRequests(config, [], cuts, decisions);
      UpgradedAfter(config, rs, decisions, later, run.requests, Unread(run.exit.readAhead, run.exit.unread))
  {
    hide ReadRequests, WriteRequests, AllSeen, AllSendable, EndingOf, StartsWhole, Concat, DecisionsLeft, Unread;
    NothingAhead(cuts);
    SeenOneByOne(config.rules, rs);
    var _, _ := PipeliningAny(config, rs, [], cuts, decisions, later);
  }

  lemma UpgradedReading(config: Config, incoming: seq<bytes>, decisions: seq<bool>, rs: seq<Outbound>, later: bytes,
                        read: seq<Inbound>, readAhead: bytes, unread: seq<bytes>)
    requires ReadRequests(config, [], incoming, decisions) == ReaderRun(read, Upgraded(readAhead, unread))
    requires AllSendable(config, rs) && WriteRequests(config.rules, rs).Ok?
    requires Concat(incoming) == WriteRequests(config.rules, rs).value + later
    requires StartsWhole(config, rs, incoming, |later|)
    ensures
      if EndingOf(rs, decisions).NeverStops? then AllSeen(config.rules, rs) <= read
      else UpgradedAfter(config, rs, decisions, later, read, readAhead + Concat(unread))
  {
    hide ReadRequests, WriteRequests, AllSeen, AllSendable, EndingOf, StartsWhole, Concat, UpgradedAfter;
    if EndingOf(rs, decisions).NeverStops? {
      ReadsOn(config, rs, incoming, decisions, later);
    } else {
      ReadsUpTo(config, rs, incoming, decisions, later);
    }
  }

  // After an accepted upgrade the bytes handed back are exactly those behind that
  // request's body. Here the stream is any list of written requests followed by
  // anything, and the tasks run in any interleaving: what comes back is the rest of the
  // list and what follows it, and every request up to the upgrade was read as it was
  // sent and answered once, in order. If no request of the list stops the reader, it
  // read them all, and the upgrade was asked for by what follows.
  lemma UpgradeHandsOver(config: Config, capacity: Capacity, incoming: seq<bytes>, steps: seq<ServerStep>,
                         rs: seq<Outbound>, later: bytes)
    requires ServerRun(config, capacity, StartServer(incoming), steps)
    requires ServerAfter(config, capacity, StartServer(incoming), steps).verdict.UpgradedTo?
    requires AllSendable(config, rs) && WriteRequests(config.rules, rs).Ok?
    requires Concat(incoming) == WriteRequests(config.rules, rs).value + later
    requires StartsWhole(config, rs, incoming, |later|)
    ensures
      var s := ServerAfter(config, capacity, StartServer(incoming), steps);
      |s.responses| == |s.reader.read|
      && if EndingOf(rs, s.decisions).NeverStops? then AllSeen(config.rules, rs) <= s.reader.read
         else UpgradedAfter(config, rs, s.decisions, later, s.reader.read, s.verdict.readAhead + Concat(s.verdict.unread))
  {
    hide ServerAfter, ServerRun, ReadRequests, WriteRequests, AllSendable, EndingOf, UpgradedAfter, Concat, StartsWhole,
         AllSeen;
    UpgradedState(config, capacity, incoming, steps);
    var s := ServerAfter(config, capacity, StartServer(incoming), steps);
    UpgradedReading(config, incoming, s.decisions, rs, later, s.reader.read, s.verdict.readAhead, s.verdict.unread);
  }
}
