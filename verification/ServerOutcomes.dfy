// What a server connection comes to when nothing fails from outside: every request the
// stream holds is answered, and the verdict is how the read loop ends.
module ServerOutcomes {
  import opened Bytes
  import opened BodyFraming
  import opened FramingChoice
  import opened CutIndependence
  import opened Pipeline
  import opened ServerProtocol
  import opened ServerGuarantees

  // The socket and the service do not fail, and a response closes the connection only
  // where its request does.
  ghost predicate QuietStep(s: Server, step: ServerStep) {
    match step
    case ReadFails(_) => false
    case ServeFails => false
    case Respond(_, close) =>
      close ==> s.coordinator.Serving? && s.coordinator.item.Request? && s.coordinator.item.ask.closeAfter
    case _ => true
  }

  ghost predicate QuietRun(config: Config, capacity: Capacity, s: Server, steps: seq<ServerStep>)
    decreases |steps|
  {
    steps == []
    || (ServerEnabled(capacity, s, steps[0]) && QuietStep(s, steps[0])
        && QuietRun(config, capacity, ServerApply(config, capacity, s, steps[0]), steps[1..]))
  }

  // Whatever is decided, the read loop ends in a failure.
  ghost predicate Doomed(config: Config, incoming: seq<bytes>, consumed: seq<bool>) {
    forall ds: seq<bool> :: ReadRequests(config, [], incoming, consumed + ds).exit.Failed?
  }

  ghost predicate FaultOk(config: Config, incoming: seq<bytes>, s: Server) {
    s.reader.phase.Reporting? || s.reader.phase == Exited(Failed) ==> Doomed(config, incoming, s.reader.consumed)
  }

  // A request that closes the connection is the last one handed over.
  ghost predicate CloseOk(s: Server) {
    forall i :: 0 <= i < |s.handed| && s.handed[i].closeAfter ==>
      i == |s.handed| - 1 && !s.reader.phase.AtHead? && !s.reader.phase.Handing?
      && (s.reader.phase.InBody? ==> s.reader.phase.ask.closeAfter)
      && (s.reader.phase.Deciding? ==> s.reader.phase.inbound.closeAfter)
  }

  // The coordinator leaves early only over a fault or such a request.
  ghost predicate LeaveOk(s: Server) {
    (s.coordinator == Ended(Broke) ==> s.reader.phase == Exited(Failed))
    && (s.coordinator == Ended(Stopped) ==>
          s.reader.phase == Exited(Failed)
          || (0 < |s.responses| <= |s.handed| && s.handed[|s.responses| - 1].closeAfter))
    && (s.coordinator == Ended(AllServed) ==> s.reader.phase == Exited(Closed) && |s.responses| == |s.handed|)
  }

  ghost predicate QuietOk(config: Config, incoming: seq<bytes>, s: Server) {
    FaultOk(config, incoming, s) && CloseOk(s) && LeaveOk(s)
  }

  lemma HeadDooms(config: Config, incoming: seq<bytes>, r: Reader)
    requires r.phase.AtHead? && Progress(config, incoming, r)
    ensures ReaderHead(config, r).phase.Reporting? ==> Doomed(config, incoming, r.consumed)
  {
    hide NextHead, NextBody;
    if NextHead(config, r.place.buffer, r.place.cuts).HeadFailed? {
      forall ds: seq<bool> ensures ReadRequests(config, [], incoming, r.consumed + ds).exit.Failed? {
        ResumeAt(config, incoming, r.consumed, r.read, r.place, ds);
      }
    }
  }

  lemma BrokenTurn(config: Config, origin: Place, ask: Ask, framing: Framing, at: Place, ds: seq<bool>)
    requires Parsed(config, origin, ask, framing, at)
    requires NextBody(config.body, Start(framing), at.buffer, at.cuts).0.Broken?
    ensures ReadRequests(config, origin.buffer, origin.cuts, ds).exit.Failed?
  {
    hide NextHead, NextBody, KeepAlive, WantsUpgrade, HandledExpect, ExpectsContinue, Start, ForRequest, Unread;
  }

  lemma BodyDooms(config: Config, incoming: seq<bytes>, r: Reader)
    requires r.phase.InBody? && Progress(config, incoming, r)
    ensures ReaderBody(config, r).phase.Reporting? ==> Doomed(config, incoming, r.consumed)
  {
    hide NextBody, ReadRequests, Parsed, Resumes, Start;
    if NextBody(config.body, Start(r.phase.framing), r.place.buffer, r.place.cuts).0.Broken? {
      forall ds: seq<bool> ensures ReadRequests(config, [], incoming, r.consumed + ds).exit.Failed? {
        ResumeAt(config, incoming, r.consumed, r.read, r.phase.origin, ds);
        BrokenTurn(config, r.phase.origin, r.phase.ask, r.phase.framing, r.place, ds);
      }
    }
  }

  lemma FaultKept(config: Config, capacity: Capacity, incoming: seq<bytes>, s: Server, step: ServerStep)
    requires ServerEnabled(capacity, s, step) && QuietStep(s, step)
    requires Progress(config, incoming, s.reader) && FaultOk(config, incoming, s)
    ensures FaultOk(config, incoming, ServerApply(config, capacity, s, step))
  {
    hide NextHead, NextBody, Doomed, Progress, ServerProtocol.Verdict_, BodyGone, ServesBody;
    match step
    case ReadHeadStep => HeadDooms(config, incoming, s.reader);
    case ReadBodyStep => BodyDooms(config, incoming, s.reader);
    case _ =>
  }

  lemma CloseKept(config: Config, capacity: Capacity, s: Server, step: ServerStep)
    requires ServerEnabled(capacity, s, step) && CloseOk(s) && ReadOk(s)
    ensures CloseOk(ServerApply(config, capacity, s, step))
  {
    hide NextHead, NextBody, ServerProtocol.Verdict_, AskOf;
  }

  lemma LeaveKept(config: Config, capacity: Capacity, s: Server, step: ServerStep)
    requires ServerEnabled(capacity, s, step) && QuietStep(s, step) && LeaveOk(s) && CloseOk(s) && ServerInv(s)
    ensures LeaveOk(ServerApply(config, capacity, s, step))
  {
    hide NextHead, NextBody, ServerProtocol.Verdict_, AskOf, Wanting, DecisionsOk, ReadOk;
  }

  lemma QuietKept(config: Config, capacity: Capacity, incoming: seq<bytes>, s: Server, step: ServerStep)
    requires ServerInv(s) && Progress(config, incoming, s.reader) && QuietOk(config, incoming, s)
    requires ServerEnabled(capacity, s, step) && QuietStep(s, step)
    ensures QuietOk(config, incoming, ServerApply(config, capacity, s, step))
  {
    hide QueueOk, ReadOk, DecisionsOk, UpgradeOk, EndOk, Progress, ServerApply, ServerEnabled, QuietStep,
         FaultOk, CloseOk, LeaveOk;
    FaultKept(config, capacity, incoming, s, step);
    CloseKept(config, capacity, s, step);
    LeaveKept(config, capacity, s, step);
  }

  lemma {:induction false} QuietRunKeeps(config: Config, capacity: Capacity, incoming: seq<bytes>, s: Server,
                                         steps: seq<ServerStep>)
    requires ServerInv(s) && Progress(config, incoming, s.reader) && VerdictOk(s) && QuietOk(config, incoming, s)
    requires QuietRun(config, capacity, s, steps)
    ensures ServerRun(config, capacity, s, steps)
    ensures
      var t := ServerAfter(config, capacity, s, steps);
      ServerInv(t) && Progress(config, incoming, t.reader) && VerdictOk(t) && QuietOk(config, incoming, t)
    decreases |steps|
  {
    hide ServerInv, Progress, VerdictOk, QuietOk, ServerEnabled, ServerApply, QuietStep;
    if steps != [] {
      ServerStepKeeps(config, capacity, incoming, s, steps[0]);
      QuietKept(config, capacity, incoming, s, steps[0]);
      QuietRunKeeps(config, capacity, incoming, ServerApply(config, capacity, s, steps[0]), steps[1..]);
    }
  }

  // ----- the end of a quiet run ----------------------------------------------

  // What the connection comes to, given how the read loop ends.
  ghost predicate EndsAsRead(s: Server, run: ReaderRun) {
    |s.responses| == |run.requests|
    && match run.exit
       case Closed => s.verdict == ClosedOk
       case Upgraded(readAhead, unread) => s.verdict == UpgradedTo(readAhead, unread)
       case Failed => false
  }

  lemma DoomedHere(config: Config, incoming: seq<bytes>, s: Server)
    requires Doomed(config, incoming, s.reader.consumed) && s.reader.consumed <= s.decisions
    ensures ReadRequests(config, [], incoming, s.decisions).exit.Failed?
  {
    hide ReadRequests;
    assert s.reader.consumed + s.decisions[|s.reader.consumed|..] == s.decisions;
  }

  lemma AllConsumed(s: Server)
    requires ServerInv(s) && s.reader.phase == Exited(Closed) && s.coordinator != Ended(Broke)
    ensures s.decisions == s.reader.consumed
  {
    hide Wanting, ReadOk, UpgradeOk, EndOk;
    WantingMonotone(s.handed, |s.responses|);
  }

  // Stopped by the last request while its body is still being read ...
  lemma StoppedInBody(config: Config, incoming: seq<bytes>, s: Server)
    requires ServerInv(s) && Progress(config, incoming, s.reader)
    requires s.reader.phase.InBody? && s.reader.phase.ask.closeAfter && s.coordinator == Ended(Stopped)
    ensures
      var run := ReadRequests(config, [], incoming, s.decisions);
      run.exit.Failed? || (run.exit.Closed? && |run.requests| == |s.handed|)
  {
    hide NextBody, ReadRequests, Parsed, Resumes, Start, Wanting, QueueOk, EndOk;
    var r := s.reader;
    var ds := s.decisions[|r.consumed|..];
    assert r.consumed + ds == s.decisions;
    ResumeAt(config, incoming, r.consumed, r.read, r.phase.origin, ds);
    var (body, _, _) := NextBody(config.body, Start(r.phase.framing), r.place.buffer, r.place.cuts);
    if body.Broken? {
      BrokenTurn(config, r.phase.origin, r.phase.ask, r.phase.framing, r.place, ds);
    } else {
      TurnOf(config, r.phase.origin, r.phase.ask, r.phase.framing, r.place, ds);
      assert ds != [] ==> ds[0] == s.decisions[|r.consumed|];
    }
  }

  // ... or before the reader has heard that its upgrade was refused.
  lemma StoppedDeciding(config: Config, incoming: seq<bytes>, s: Server)
    requires ServerInv(s) && Progress(config, incoming, s.reader)
    requires s.reader.phase.Deciding? && s.reader.phase.inbound.closeAfter && s.coordinator == Ended(Stopped)
    ensures
      var run := ReadRequests(config, [], incoming, s.decisions);
      run.exit.Closed? && |run.requests| == |s.handed|
  {
    hide ReadRequests, Resumes, Pivots, Wanting, QueueOk, EndOk;
    var r := s.reader;
    var ds := s.decisions[|r.consumed|..];
    assert r.consumed + ds == s.decisions;
    ResumeAt(config, incoming, r.consumed, r.read[..|r.read| - 1], r.phase.origin, ds);
    PivotAt(config, r.phase.origin, r.phase.inbound, r.place, ds);
    assert ds != [] ==> ds[0] == s.decisions[|r.consumed|];
  }

  lemma StoppedEnd(config: Config, incoming: seq<bytes>, s: Server)
    requires ServerInv(s) && Progress(config, incoming, s.reader) && QuietOk(config, incoming, s)
    requires s.coordinator == Ended(Stopped) && !ReadRequests(config, [], incoming, s.decisions).exit.Failed?
    ensures
      var run := ReadRequests(config, [], incoming, s.decisions);
      run.exit.Closed? && |run.requests| == |s.responses|
  {
    hide ReadRequests, Resumes, Pivots, Parsed, Wanting, Doomed;
    match s.reader.phase
    case InBody(_, _, _) => StoppedInBody(config, incoming, s);
    case Deciding(_, _) => StoppedDeciding(config, incoming, s);
    case Exited(Closed) => AllConsumed(s);
    case Exited(Failed) => DoomedHere(config, incoming, s);
    case Reporting(_) => DoomedHere(config, incoming, s);
    case _ =>
  }

  lemma QuietEnd(config: Config, incoming: seq<bytes>, s: Server)
    requires ServerInv(s) && Progress(config, incoming, s.reader) && VerdictOk(s) && QuietOk(config, incoming, s)
    requires !s.verdict.Running? && !ReadRequests(config, [], incoming, s.decisions).exit.Failed?
    ensures EndsAsRead(s, ReadRequests(config, [], incoming, s.decisions))
  {
    hide ReadRequests, Resumes, Pivots, Parsed, Wanting, Doomed;
    match s.coordinator.how
    case Broke => DoomedHere(config, incoming, s);
    case Stopped => StoppedEnd(config, incoming, s);
    case AllServed => AllConsumed(s);
    case Accepted =>
      if s.reader.phase == Exited(Failed) {
        DoomedHere(config, incoming, s);
      }
  }

  lemma QuietStart(config: Config, incoming: seq<bytes>)
    ensures
      var s := StartServer(incoming);
      ServerInv(s) && Progress(config, incoming, s.reader) && VerdictOk(s) && QuietOk(config, incoming, s)
  {
    var s := StartServer(incoming);
    assert ServerRun(config, Capacity(1, 1), s, []) && ServerAfter(config, Capacity(1, 1), s, []) == s;
    ReachableServer(config, Capacity(1, 1), incoming, []);
  }

  // When nothing fails from outside and the stream is one the read loop reads without
  // failing, a connection that has come to its end answered every request of the stream
  // once, in order, and ended as the read loop does, whatever the interleaving.
  lemma QuietRunServes(config: Config, capacity: Capacity, incoming: seq<bytes>, steps: seq<ServerStep>)
    requires QuietRun(config, capacity, StartServer(incoming), steps)
    ensures ServerRun(config, capacity, StartServer(incoming), steps)
    ensures
      var s := ServerAfter(config, capacity, StartServer(incoming), steps);
      var run := ReadRequests(config, [], incoming, s.decisions);
      s.verdict.Running? || run.exit.Failed? || EndsAsRead(s, run)
  {
    hide ServerInv, Progress, VerdictOk, QuietOk, ServerRun, ServerAfter, QuietRun, ReadRequests, EndsAsRead;
    QuietStart(config, incoming);
    QuietRunKeeps(config, capacity, incoming, StartServer(incoming), steps);
    var s := ServerAfter(config, capacity, StartServer(incoming), steps);
    if !s.verdict.Running? && !ReadRequests(config, [], incoming, s.decisions).exit.Failed? {
      QuietEnd(config, incoming, s);
    }
  }

  // How a server ends that was sent nothing but these requests.
  ghost predicate ServedAsWritten(rs: seq<Outbound>, s: Server) {
    match EndingOf(rs, s.decisions)
    case NeverStops => |s.responses| == |rs| && s.verdict == ClosedOk
    case StopsAfter(i, accepted) =>
      |s.responses| == i + 1 && if accepted then s.verdict.UpgradedTo? else s.verdict == ClosedOk
  }

  lemma WrittenReading(config: Config, rs: seq<Outbound>, cuts: seq<bytes>, decisions: seq<bool>, s: Server)
    requires AllSendable(config, rs) && WriteRequests(config.rules, rs).Ok?
    requires Concat(cuts) == WriteRequests(config.rules, rs).value && StartsWhole(config, rs, cuts, 0)
    requires s.decisions == decisions
    ensures
      var run := ReadRequests(config, [], cuts, decisions);
      !run.exit.Failed? && (EndsAsRead(s, run) ==> ServedAsWritten(rs, s))
  {
    hide ReadRequests, WriteRequests, AllSeen, AllSendable, EndingOf, StartsWhole, Concat, DecisionsLeft, Unread;
    NothingAhead(cuts);
    SeenOneByOne(config.rules, rs);
    assert WriteRequests(config.rules, rs).value + [] == WriteRequests(config.rules, rs).value;
    var left, later := PipeliningAny(config, rs, [], cuts, decisions, []);
    if EndingOf(rs, decisions).NeverStops? {
      StreamEnds(config, left, later, DecisionsLeft(rs, decisions));
    }
  }

  // A server that is sent a list of requests and nothing else, in any delivery that cuts
  // no start line at the limit, answers every request up to the one that closes the
  // connection or upgrades it, and all of them when none does; then it closes, or hands
  // the connection over, in every interleaving of its tasks in which nothing fails.
  lemma WrittenAreServed(config: Config, capacity: Capacity, incoming: seq<bytes>, steps: seq<ServerStep>, rs: seq<Outbound>)
    requires QuietRun(config, capacity, StartServer(incoming), steps)
    requires AllSendable(config, rs) && WriteRequests(config.rules, rs).Ok?
    requires Concat(incoming) == WriteRequests(config.rules, rs).value && StartsWhole(config, rs, incoming, 0)
    ensures ServerRun(config, capacity, StartServer(incoming), steps)
    ensures
      var s := ServerAfter(config, capacity, StartServer(incoming), steps);
      s.verdict.Running? || ServedAsWritten(rs, s)
  {
    hide ServerRun, ServerAfter, QuietRun, ReadRequests, EndsAsRead, ServedAsWritten, WriteRequests, AllSendable,
         StartsWhole, Concat;
    QuietRunServes(config, capacity, incoming, steps);
    var s := ServerAfter(config, capacity, StartServer(incoming), steps);
    WrittenReading(config, rs, incoming, s.decisions, s);
  }

  // Such a run can always go on until there is a verdict.
  lemma QuietGoesOn(config: Config, capacity: Capacity, incoming: seq<bytes>, steps: seq<ServerStep>)
    returns (step: ServerStep)
    requires capacity.pipeline > 0 && ServerRun(config, capacity, StartServer(incoming), steps)
    requires ServerAfter(config, capacity, StartServer(incoming), steps).verdict.Running?
    ensures
      var s := ServerAfter(config, capacity, StartServer(incoming), steps);
      ServerEnabled(capacity, s, step) && QuietStep(s, step)
  {
    hide ServerAfter, ServerRun, ServerInv, Progress;
    ReachableServer(config, capacity, incoming, steps);
    var s := ServerAfter(config, capacity, StartServer(incoming), steps);
    step := CanMove(capacity, s);
    if step.Respond? {
      step := Respond(false, s.coordinator.item.ask.closeAfter);
    }
  }

  // ----- how a connection ends -----------------------------------------------

  // The coordinator broke off, or stopped, and that is the verdict if there is one.
  ghost predicate EndsWith(s: Server, broke: bool) {
    s.coordinator == Ended(if broke then Broke else Stopped)
    && (s.verdict.Running? || s.verdict == if broke then Error else ClosedOk)
  }

  lemma {:induction false} EndStays(config: Config, capacity: Capacity, s: Server, steps: seq<ServerStep>, broke: bool)
    requires EndsWith(s, broke) && ServerRun(config, capacity, s, steps)
    ensures EndsWith(ServerAfter(config, capacity, s, steps), broke)
    decreases |steps|
  {
    hide ServerEnabled, ServerApply, EndsWith;
    if steps != [] {
      EndStep(config, capacity, s, steps[0], broke);
      EndStays(config, capacity, ServerApply(config, capacity, s, steps[0]), steps[1..], broke);
    }
  }

  lemma EndStep(config: Config, capacity: Capacity, s: Server, step: ServerStep, broke: bool)
    requires EndsWith(s, broke) && ServerEnabled(capacity, s, step)
    ensures EndsWith(ServerApply(config, capacity, s, step), broke)
  {
    hide ReaderHead, ReaderBody, ReaderDecides;
  }

  // A service that fails makes the connection fail, whatever comes after; a fault closes
  // it in good order only when it was malformed input that could be answered; and so does
  // a response that closes it without accepting an upgrade.
  lemma LastWord(config: Config, capacity: Capacity, s: Server, step: ServerStep, more: seq<ServerStep>)
    requires ServerEnabled(capacity, s, step) && ServerRun(config, capacity, ServerApply(config, capacity, s, step), more)
    ensures
      var t := ServerAfter(config, capacity, ServerApply(config, capacity, s, step), more);
      t.verdict.Running?
      || match step
         case ServeFails => t.verdict == Error
         case AnswerFault(written) => t.verdict == if s.coordinator.item.malformed && written then ClosedOk else Error
         case Respond(accepted, close) =>
           close && !(accepted && s.coordinator.item.ask.wantsUpgrade) ==> t.verdict == ClosedOk
         case _ => true
  {
    hide ReaderHead, ReaderBody, ReaderDecides, ServerAfter, ServerRun;
    var next := ServerApply(config, capacity, s, step);
    match step
    case ServeFails => EndStays(config, capacity, next, more, true);
    case AnswerFault(written) => EndStays(config, capacity, next, more, !(s.coordinator.item.malformed && written));
    case Respond(accepted, close) =>
      if close && !(accepted && s.coordinator.item.ask.wantsUpgrade) {
        EndStays(config, capacity, next, more, false);
      }
    case _ =>
  }

  // ----- the channels --------------------------------------------------------

  // Neither channel ever holds more than it has room for.
  ghost predicate WithinRoom(capacity: Capacity, s: Server) {
    |s.queue| <= capacity.pipeline && s.body.waiting <= capacity.body
  }

  lemma RoomKept(config: Config, capacity: Capacity, s: Server, step: ServerStep)
    requires WithinRoom(capacity, s) && ServerEnabled(capacity, s, step)
    ensures WithinRoom(capacity, ServerApply(config, capacity, s, step))
  {
    hide ReaderHead, ReaderBody, ReaderDecides, ServerProtocol.Verdict_;
  }

  lemma {:induction false} RoomAfter(config: Config, capacity: Capacity, s: Server, steps: seq<ServerStep>)
    requires WithinRoom(capacity, s) && ServerRun(config, capacity, s, steps)
    ensures WithinRoom(capacity, ServerAfter(config, capacity, s, steps))
    decreases |steps|
  {
    hide WithinRoom, ServerEnabled, ServerApply;
    if steps != [] {
      RoomKept(config, capacity, s, steps[0]);
      RoomAfter(config, capacity, ServerApply(config, capacity, s, steps[0]), steps[1..]);
    }
  }

  lemma NeverOverfull(config: Config, capacity: Capacity, incoming: seq<bytes>, steps: seq<ServerStep>)
    requires ServerRun(config, capacity, StartServer(incoming), steps)
    ensures
      var s := ServerAfter(config, capacity, StartServer(incoming), steps);
      |s.queue| <= capacity.pipeline && s.body.waiting <= capacity.body
  {
    hide ServerAfter, ServerRun;
    RoomAfter(config, capacity, StartServer(incoming), steps);
  }
}
