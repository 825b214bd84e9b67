// One server connection as two tasks: a reader that parses requests ahead into a
// bounded queue, and a coordinator that answers them in order and decides upgrades.
// A run is any interleaving of their steps.
module ServerProtocol {
  import opened Bytes
  import opened BodyFraming
  import opened FramingChoice
  import opened RequestHead
  import opened Pipeline

  // What of a request the coordinator acts on.
  datatype Ask = Ask(head: Head, closeAfter: bool, expectContinue: bool, wantsUpgrade: bool)

  datatype Item = Request(index: nat, ask: Ask) | Fault(malformed: bool)

  // The reader: between heads; with a request to hand over, or in its body; waiting
  // for an upgrade decision; with a fault to report; or done. The position at which
  // the current request began is remembered.
  datatype Place = Place(buffer: bytes, cuts: seq<bytes>)

  datatype ReaderPhase =
    | AtHead
    | Handing(origin: Place, ask: Ask, framing: Framing)
    | InBody(origin: Place, ask: Ask, framing: Framing)
    | Deciding(origin: Place, inbound: Inbound)
    | Reporting(malformed: bool)
    | Exited(exit: ReaderExit)

  // `read` are the requests whose bodies have been read; `consumed` the upgrade
  // decisions taken in.
  datatype Reader = Reader(place: Place, phase: ReaderPhase, read: seq<Inbound>, consumed: seq<bool>)

  datatype CoordinatorExit = AllServed | Stopped | Accepted | Broke

  datatype Coordinator = Waiting | Serving(item: Item) | Ended(how: CoordinatorExit)

  datatype Verdict = Running | ClosedOk | UpgradedTo(readAhead: bytes, unread: seq<bytes>) | UnmatchedUpgrade | Error

  // Room in the request queue and in the channel that carries one request's body.
  datatype Capacity = Capacity(pipeline: nat, body: nat)

  // The channel of the body being read: frames waiting in it, whether the reader holds
  // one it has yet to put there, and whether the service has let go of the other end.
  datatype BodyChannel = BodyChannel(waiting: nat, holding: bool, dropped: bool)

  // `handed` are the requests put into the queue and `taken` how many of them the
  // coordinator took out; `responses` are the final responses written, by request;
  // `decisions` the upgrade answers given.
  datatype Server = Server(reader: Reader, handed: seq<Ask>, queue: seq<Item>, taken: nat, body: BodyChannel,
                           coordinator: Coordinator, responses: seq<nat>, decisions: seq<bool>, verdict: Verdict)

  datatype ServerStep =
    | ReadHeadStep
    | ReadFails(malformed: bool)
    | HandOver
    | DecodeFrame
    | PassFrame
    | TakeFrame
    | DropBody
    | ReadBodyStep
    | Decide
    | Report
    | Receive
    | ReceiveNone
    | Respond(accepted: bool, close: bool)
    | ServeFails
    | AnswerFault(written: bool)
    | Join

  function AskOf(parsed: Head): Ask {
    Ask(HandledExpect(parsed), !KeepAlive(HandledExpect(parsed)), ExpectsContinue(parsed), WantsUpgrade(HandledExpect(parsed)))
  }

  function InboundOf(ask: Ask, body: BodyResult): Inbound {
    Inbound(ask.head, ask.closeAfter, ask.expectContinue, ask.wantsUpgrade, body)
  }

  // After a request without a pending upgrade.
  function AfterRequest(closeAfter: bool): ReaderPhase {
    if closeAfter then Exited(Closed) else AtHead
  }

  predicate ReaderDone(s: Server) {
    s.reader.phase.Exited?
  }

  // The service works on the request whose body is, or was last, being read.
  predicate ServesBody(s: Server) {
    s.coordinator.Serving? && s.coordinator.item.Request? && s.coordinator.item.index + 1 == |s.handed|
  }

  // A service is done with the body of a request when the response is written.
  predicate BodyGone(s: Server) {
    s.body.dropped || |s.responses| == |s.handed|
  }

  predicate ServerEnabled(capacity: Capacity, s: Server, step: ServerStep) {
    s.verdict.Running?
    && match step
       case ReadHeadStep => s.reader.phase.AtHead?
       case ReadFails(_) => s.reader.phase.AtHead? || (s.reader.phase.InBody? && !s.body.holding)
       case HandOver => s.reader.phase.Handing? && |s.queue| < capacity.pipeline
       case DecodeFrame => s.reader.phase.InBody? && !s.body.holding
       case PassFrame => s.reader.phase.InBody? && s.body.holding && (BodyGone(s) || s.body.waiting < capacity.body)
       case TakeFrame => ServesBody(s) && s.body.waiting > 0
       case DropBody => ServesBody(s)
       case ReadBodyStep => s.reader.phase.InBody? && !s.body.holding
       case Decide =>
         s.reader.phase.Deciding?
         && (|s.decisions| > |s.reader.consumed| || s.coordinator == Ended(Broke))
       case Report => s.reader.phase.Reporting? && |s.queue| < capacity.pipeline
       case Receive => s.coordinator.Waiting? && s.queue != []
       case ReceiveNone => s.coordinator.Waiting? && s.queue == [] && ReaderDone(s)
       case Respond(_, close) =>
         s.coordinator.Serving? && s.coordinator.item.Request? && (s.coordinator.item.ask.closeAfter ==> close)
       case ServeFails => s.coordinator.Serving? && s.coordinator.item.Request?
       case AnswerFault(_) => s.coordinator.Serving? && s.coordinator.item.Fault?
       case Join =>
         s.coordinator.Ended?
         && (s.coordinator.how.AllServed? || s.coordinator.how.Accepted? ==> ReaderDone(s))
  }

  function ReaderHead(config: Config, r: Reader): Reader
    requires r.phase.AtHead?
  {
    match NextHead(config, r.place.buffer, r.place.cuts)
    case CleanEnd => r.(phase := Exited(Closed))
    case HeadFailed => r.(phase := Reporting(true))
    case GotHead(parsed, semantics, buffer, cuts) =>
      r.(place := Place(buffer, cuts), phase := Handing(r.place, AskOf(parsed), ForRequest(semantics)))
  }

  function ReaderBody(config: Config, r: Reader): Reader
    requires r.phase.InBody?
  {
    var (body, left, later) := NextBody(config.body, Start(r.phase.framing), r.place.buffer, r.place.cuts);
    if body.Broken? then r.(phase := Reporting(true))
    else
      var inbound := InboundOf(r.phase.ask, body);
      var moved := r.(place := Place(left, later), read := r.read + [inbound]);
      if r.phase.ask.wantsUpgrade then moved.(phase := Deciding(r.phase.origin, inbound))
      else moved.(phase := AfterRequest(r.phase.ask.closeAfter))
  }

  // The decision arrives, or its sender has gone.
  function ReaderDecides(r: Reader, decisions: seq<bool>): Reader
    requires r.phase.Deciding?
  {
    if |decisions| <= |r.consumed| then r.(phase := Exited(Closed))
    else
      var accepted := decisions[|r.consumed|];
      var told := r.(consumed := r.consumed + [accepted]);
      if accepted then told.(phase := Exited(Upgraded(r.place.buffer, r.place.cuts)))
      else told.(phase := AfterRequest(r.phase.inbound.closeAfter))
  }

  // What the connection amounts to once the coordinator has ended; it ends the
  // reader too unless it has to hear from it.
  function Verdict_(s: Server): Verdict
    requires s.coordinator.Ended?
  {
    match s.coordinator.how
    case Broke => Error
    case Stopped => ClosedOk
    case AllServed =>
      if !s.reader.phase.Exited? then Running
      else (match s.reader.phase.exit case Closed => ClosedOk case Upgraded(_, _) => UnmatchedUpgrade case Failed => Error)
    case Accepted =>
      if !s.reader.phase.Exited? then Running
      else (match s.reader.phase.exit case Closed => ClosedOk case Upgraded(b, c) => UpgradedTo(b, c) case Failed => Error)
  }

  function ServerApply(config: Config, capacity: Capacity, s: Server, step: ServerStep): Server
    requires ServerEnabled(capacity, s, step)
  {
    var r := s.reader;
    match step
    case ReadHeadStep => s.(reader := ReaderHead(config, r))
    case ReadFails(malformed) => s.(reader := r.(phase := Reporting(malformed)))
    case HandOver =>
      s.(reader := r.(phase := InBody(r.phase.origin, r.phase.ask, r.phase.framing)),
         handed := s.handed + [r.phase.ask],
         queue := s.queue + [Request(|s.handed|, r.phase.ask)],
         body := BodyChannel(0, false, false))
    case DecodeFrame => s.(body := s.body.(holding := true))
    case PassFrame =>
      s.(body := s.body.(holding := false, waiting := if BodyGone(s) then s.body.waiting else s.body.waiting + 1))
    case TakeFrame => s.(body := s.body.(waiting := s.body.waiting - 1))
    case DropBody => s.(body := s.body.(dropped := true))
    case ReadBodyStep => s.(reader := ReaderBody(config, r))
    case Decide => s.(reader := ReaderDecides(r, s.decisions))
    case Report => s.(reader := r.(phase := Exited(Failed)), queue := s.queue + [Fault(r.phase.malformed)])
    case Receive => s.(coordinator := Serving(s.queue[0]), queue := s.queue[1..],
                       taken := if s.queue[0].Request? then s.taken + 1 else s.taken)
    case ReceiveNone => s.(coordinator := Ended(AllServed))
    case Respond(accepted, close) =>
      var item := s.coordinator.item;
      var answered := s.(responses := s.responses + [item.index],
                         decisions := if item.ask.wantsUpgrade then s.decisions + [accepted] else s.decisions);
      answered.(coordinator := if item.ask.wantsUpgrade && accepted then Ended(Accepted)
                               else if close then Ended(Stopped) else Waiting)
    case ServeFails => s.(coordinator := Ended(Broke))
    case AnswerFault(written) => s.(coordinator := Ended(if s.coordinator.item.malformed && written then Stopped else Broke))
    case Join => s.(verdict := Verdict_(s))
  }

  function StartServer(incoming: seq<bytes>): Server {
    Server(Reader(Place([], incoming), AtHead, [], []), [], [], 0, BodyChannel(0, false, false), Waiting, [], [], Running)
  }

  predicate ServerRun(config: Config, capacity: Capacity, s: Server, steps: seq<ServerStep>)
    decreases |steps|
  {
    steps == []
    || (ServerEnabled(capacity, s, steps[0]) && ServerRun(config, capacity, ServerApply(config, capacity, s, steps[0]), steps[1..]))
  }

  function ServerAfter(config: Config, capacity: Capacity, s: Server, steps: seq<ServerStep>): Server
    requires ServerRun(config, capacity, s, steps)
    decreases |steps|
  {
    if steps == [] then s else ServerAfter(config, capacity, ServerApply(config, capacity, s, steps[0]), steps[1..])
  }

  // ----- the invariant -------------------------------------------------------

  // How many of the first n requests asked for an upgrade.
  function Wanting(asks: seq<Ask>): nat {
    if asks == [] then 0 else Wanting(asks[..|asks| - 1]) + (if asks[|asks| - 1].wantsUpgrade then 1 else 0)
  }

  lemma WantingMore(asks: seq<Ask>, ask: Ask)
    ensures Wanting(asks + [ask]) == Wanting(asks) + (if ask.wantsUpgrade then 1 else 0)
  {
    assert (asks + [ask])[..|asks|] == asks;
  }

  lemma WantingNext(asks: seq<Ask>, n: nat)
    requires n < |asks|
    ensures Wanting(asks[..n + 1]) == Wanting(asks[..n]) + (if asks[n].wantsUpgrade then 1 else 0)
  {
    assert asks[..n + 1] == asks[..n] + [asks[n]];
    WantingMore(asks[..n], asks[n]);
  }

  // Requests in the queue, in hand and answered are the ones handed over, in order;
  // a fault comes last.
  ghost predicate QueueOk(s: Server) {
    && (forall i :: 0 <= i < |s.responses| ==> s.responses[i] == i)
    && |s.responses| <= s.taken <= |s.handed|
    && s.taken <= |s.responses| + 1
    && (s.coordinator.Waiting? || s.coordinator == Ended(Accepted) ==> s.taken == |s.responses|)
    && (s.coordinator.Serving? && s.coordinator.item.Request? ==>
          s.taken == |s.responses| + 1 && s.coordinator.item == Request(|s.responses|, s.handed[|s.responses|]))
    && (s.coordinator.Serving? && s.coordinator.item.Fault? ==>
          s.taken == |s.responses| && s.queue == [] && s.reader.phase == Exited(Failed))
    && |s.handed| - s.taken <= |s.queue| <= |s.handed| - s.taken + 1
    && (forall i :: 0 <= i < |s.handed| - s.taken ==> s.queue[i] == Request(s.taken + i, s.handed[s.taken + i]))
    && (|s.queue| > |s.handed| - s.taken ==> s.queue[|s.queue| - 1].Fault? && s.reader.phase == Exited(Failed))
  }

  // The requests read whole are those handed over, but for the one in its body.
  ghost predicate ReadOk(s: Server) {
    var r := s.reader;
    match r.phase
    case InBody(_, ask, _) => s.handed != [] && s.handed[|s.handed| - 1] == ask && |r.read| == |s.handed| - 1
    case Deciding(_, inbound) =>
      s.handed != [] && s.handed[|s.handed| - 1].wantsUpgrade && |r.read| == |s.handed|
      && s.handed[|s.handed| - 1].closeAfter == inbound.closeAfter
    case Reporting(_) => true
    case Exited(Failed) => true
    case _ => |r.read| == |s.handed|
  }

  // A request with an undecided upgrade is the last one handed over.
  ghost predicate Undecided(s: Server) {
    (s.reader.phase.InBody? && s.reader.phase.ask.wantsUpgrade) || s.reader.phase.Deciding?
  }

  ghost predicate DecisionsOk(s: Server)
    requires |s.responses| <= |s.handed|
  {
    var r := s.reader;
    && |s.decisions| == Wanting(s.handed[..|s.responses|])
    && r.consumed <= s.decisions
    && (r.phase.AtHead? || r.phase.Handing? || (r.phase.InBody? && !r.phase.ask.wantsUpgrade) ==>
          Wanting(s.handed) == |r.consumed|)
    && (Undecided(s) ==> Wanting(s.handed) == |r.consumed| + 1)
    && Wanting(s.handed) <= |r.consumed| + 1
    && (Wanting(s.handed) > |r.consumed| ==> s.handed != [] && s.handed[|s.handed| - 1].wantsUpgrade)
    && (r.phase == Exited(Closed) && s.coordinator != Ended(Broke) ==> Wanting(s.handed) == |r.consumed|)
    && (forall i :: 0 <= i < |r.consumed| && r.consumed[i] ==> r.phase.Exited? && r.phase.exit.Upgraded?)
  }

  // An accepted upgrade is the coordinator's last word, given with nothing left in
  // the queue, and the reader leaves with it and only with it.
  ghost predicate UpgradeOk(s: Server) {
    var r := s.reader;
    && (forall i :: 0 <= i < |s.decisions| && s.decisions[i] ==> i == |s.decisions| - 1 && s.coordinator == Ended(Accepted))
    && (s.coordinator == Ended(Accepted) ==>
          s.decisions != [] && s.decisions[|s.decisions| - 1] && |s.responses| == |s.handed|
          && !r.phase.AtHead? && !r.phase.Handing? && r.phase != Exited(Closed))
    && (r.phase.Exited? && r.phase.exit.Upgraded? ==> s.coordinator == Ended(Accepted) && r.consumed == s.decisions)
  }

  // A coordinator that saw the end of the queue saw the reader end it.
  ghost predicate EndOk(s: Server) {
    var r := s.reader;
    && (s.coordinator == Ended(AllServed) ==> r.phase == Exited(Closed))
    && (r.phase == Exited(Failed) ==>
          |s.queue| > |s.handed| - s.taken || s.coordinator.Ended? || (s.coordinator.Serving? && s.coordinator.item.Fault?))
  }

  ghost predicate ServerInv(s: Server) {
    QueueOk(s) && ReadOk(s) && DecisionsOk(s) && UpgradeOk(s) && EndOk(s)
  }

  // ----- the steps keep it ---------------------------------------------------

  lemma KeepQueue(config: Config, capacity: Capacity, s: Server, step: ServerStep)
    requires ServerInv(s) && ServerEnabled(capacity, s, step)
    ensures QueueOk(ServerApply(config, capacity, s, step))
  {
    hide NextHead, NextBody, Wanting, ReadOk, DecisionsOk, EndOk;
  }

  lemma KeepRead(config: Config, capacity: Capacity, s: Server, step: ServerStep)
    requires ServerInv(s) && ServerEnabled(capacity, s, step)
    ensures ReadOk(ServerApply(config, capacity, s, step))
  {
    hide NextHead, NextBody, Wanting, QueueOk, DecisionsOk, EndOk;
  }

  lemma KeepDecisions(config: Config, capacity: Capacity, s: Server, step: ServerStep)
    requires ServerInv(s) && ServerEnabled(capacity, s, step)
    ensures |ServerApply(config, capacity, s, step).responses| <= |ServerApply(config, capacity, s, step).handed|
    ensures DecisionsOk(ServerApply(config, capacity, s, step))
  {
    hide NextHead, NextBody, Wanting;
    if step.HandOver? {
      WantingMore(s.handed, s.reader.phase.ask);
      assert (s.handed + [s.reader.phase.ask])[..|s.responses|] == s.handed[..|s.responses|];
    } else if step.Respond? {
      WantingNext(s.handed, |s.responses|);
    }
  }

  lemma {:induction false} WantingMonotone(asks: seq<Ask>, n: nat)
    requires n <= |asks|
    ensures Wanting(asks[..n]) <= Wanting(asks)
  {
    if n < |asks| {
      WantingMonotone(asks[..|asks| - 1], n);
      assert asks[..|asks| - 1][..n] == asks[..n];
    } else {
      assert asks[..n] == asks;
    }
  }

  lemma WantingLast(asks: seq<Ask>, k: nat)
    requires k < |asks| && asks[|asks| - 1].wantsUpgrade
    ensures k + 1 < |asks| ==> Wanting(asks[..k + 1]) < Wanting(asks)
  {
    if k + 1 < |asks| {
      var rest := asks[..|asks| - 1];
      WantingMonotone(rest, k + 1);
      assert rest[..k + 1] == asks[..k + 1];
    }
  }

  // A request whose upgrade is still to be decided is the last one handed over.
  lemma AskedIsLast(s: Server)
    requires ServerInv(s) && s.coordinator.Serving? && s.coordinator.item.Request? && s.coordinator.item.ask.wantsUpgrade
    ensures |s.handed| == |s.responses| + 1 && Wanting(s.handed) > |s.reader.consumed|
  {
    hide Wanting;
    var k := |s.responses|;
    WantingNext(s.handed, k);
    WantingMonotone(s.handed, k + 1);
    WantingLast(s.handed, k);
  }

  lemma DecisionConsumed(s: Server)
    requires s.reader.consumed <= s.decisions && |s.decisions| == |s.reader.consumed| + 1
    ensures s.decisions == s.reader.consumed + [s.decisions[|s.reader.consumed|]]
  {
  }

  lemma KeepUpgrade(config: Config, capacity: Capacity, s: Server, step: ServerStep)
    requires ServerInv(s) && ServerEnabled(capacity, s, step)
    ensures UpgradeOk(ServerApply(config, capacity, s, step))
  {
    hide NextHead, NextBody, Wanting;
    var t := ServerApply(config, capacity, s, step);
    match step
    case Respond(accepted, _) =>
      if s.coordinator.item.ask.wantsUpgrade {
        AskedIsLast(s);
      }
      assert UpgradeOk(t);
    case Decide =>
      assert s.handed[..|s.handed|] == s.handed;
      if |s.decisions| == |s.reader.consumed| + 1 {
        DecisionConsumed(s);
      }
      assert UpgradeOk(t);
    case ReadBodyStep =>
      assert s.handed[..|s.handed|] == s.handed;
      assert |s.decisions| == |s.reader.consumed| ==> s.decisions == s.reader.consumed;
      assert UpgradeOk(t);
    case ReadHeadStep => assert UpgradeOk(t);
    case _ => assert UpgradeOk(t);
  }

  lemma KeepEnd(config: Config, capacity: Capacity, s: Server, step: ServerStep)
    requires ServerInv(s) && ServerEnabled(capacity, s, step)
    ensures EndOk(ServerApply(config, capacity, s, step))
  {
    hide NextHead, NextBody, Wanting;
  }
}
