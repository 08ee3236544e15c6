// Everything the gateway sends and every socket it closes, by the steps of a
// run alone.
module GatewayTraffic {
  import opened Wrappers
  import opened Gateway
  import opened GatewayFrames
  import opened GatewayInvariant
  import opened GatewayPairing
  import opened GatewayDelivery
  import opened GatewayDepartures
  import opened GatewayHistory
  import opened GatewayAnswers
  import opened GatewayClosing

  // ----- what a handler has found out

  // The desktop that a pairing client's handler found in the slot.
  function Seen(steps: seq<Step>, w: Socket): Option<Socket> {
    if steps == [] then None
    else
      var before, step := steps[..|steps| - 1], steps[|steps| - 1];
      if step == ReadSlot(w) then LastEntered(before) else Seen(before, w)
  }

  // The request that it stored.
  function Asks(steps: seq<Step>, w: Socket): Option<RequestId> {
    if steps == [] then None
    else
      var before, step := steps[..|steps| - 1], steps[|steps| - 1];
      if step.Store? && step.w == w then Some(step.rid) else Asks(before, w)
  }

  // Who is to get the message that this handler holds.
  function ChosenFor(steps: seq<Step>, w: Socket, to: Recipients): Recipients {
    match Held(steps, w)
    case None => []
    case Some(message) =>
      match message.target
      case Broadcast => to
      case Unicast(d) => if Holder(steps, d).Some? then [(d, Holder(steps, d).value)] else []
      case _ => []
  }

  // Who is still to get the message that this handler is sending.
  function Left(steps: seq<Step>, w: Socket): Recipients {
    if steps == [] then []
    else
      var before, step := steps[..|steps| - 1], steps[|steps| - 1];
      if step.w != w then Left(before, w)
      else if step.TakeSnapshot? then ChosenFor(before, w, step.to)
      else if step.SendNext? && Left(before, w) != [] then Left(before, w)[1..]
      else Left(before, w)
  }

  // A handler goes by what it found out.
  predicate KnowsPairing(p: Phase, seen: Option<Socket>, asks: Option<RequestId>) {
    && (p.PairStore? || p.PairForward? ==> seen == Some(p.desktop))
    && (p.PairForward? || p.PairAck? || p.PairWait? ==> asks == Some(p.rid))
  }

  predicate OutsidePairing(p: Phase) {
    !p.PairStore? && !p.PairForward? && !p.PairAck? && !p.PairWait?
  }

  predicate IsAsking(step: Step) {
    step.ReadSlot? || step.Store? || step.Forward? || step.Acknowledge? || step.Hangup?
  }

  lemma SlotReadKnows(s: State, w: Socket, asks: Option<RequestId>)
    ensures KnowsPairing(PhaseOf(SlotRead(s, w), w), s.tables.slot, asks)
  {
  }

  lemma StoredKnows(s: State, w: Socket, rid: RequestId)
    requires w in s.phase && s.phase[w].PairStore?
    ensures KnowsPairing(PhaseOf(RequestStored(s, w, rid), w), Some(s.phase[w].desktop), Some(rid))
  {
    hide StoreRequest;
  }

  lemma ForwardedKnows(s: State, w: Socket, seen: Option<Socket>)
    requires w in s.phase && s.phase[w].PairForward?
    ensures KnowsPairing(PhaseOf(RequestForwarded(s, w), w), seen, Some(s.phase[w].rid))
  {
  }

  lemma AcknowledgedKnows(s: State, w: Socket, seen: Option<Socket>)
    requires w in s.phase && s.phase[w].PairAck?
    ensures KnowsPairing(PhaseOf(RequestAcknowledged(s, w), w), seen, Some(s.phase[w].rid))
  {
  }

  lemma AuthIsOutside(s: State, w: Socket, id: DeviceId, role: Role)
    ensures OutsidePairing(PhaseOf(AuthPassed(s, w, id, role), w))
  {
    if w in s.closed {
      assert AuthPassed(s, w, id, role) == Goto(s, w, Done);
    } else {
      assert AuthPassed(s, w, id, role) == Goto(s.(outbox := s.outbox + [Notice(w)]), w, Authed(id, role));
    }
  }

  lemma RegisteringIsOutside(s: State, w: Socket)
    requires w in s.phase && s.phase[w].Authed?
    ensures OutsidePairing(PhaseOf(Registering(s, w), w))
  {
    hide Register;
  }

  lemma TimedOutIsOutside(s: State, w: Socket)
    requires w in s.phase && s.phase[w].PairWait?
    ensures OutsidePairing(PhaseOf(TimedOut(s, w), w))
  {
    hide PopRequest;
  }

  lemma ArrivingOutside(s: State, step: Step)
    requires Enabled(s, step) && !IsAsking(step)
    requires step.w in s.phase ==> !InSession(s.phase[step.w]) && !Departing(s.phase[step.w])
    ensures OutsidePairing(PhaseOf(Next(s, step), step.w))
  {
    hide IsSnapshot, Registering, AuthPassed, TimedOut;
    match step
    case AuthPasses(w, id, role) => AuthIsOutside(s, w, id, role);
    case TryRegister(w) => RegisteringIsOutside(s, w);
    case Timeout(w) => TimedOutIsOutside(s, w);
    case _ =>
  }

  lemma ServedIsOutside(p: Phase)
    requires InSession(p) || Departing(p)
    ensures OutsidePairing(p)
  {
  }

  // No other step takes a handler into the middle of a pairing request.
  lemma OutsideStep(s: State, step: Step)
    requires Enabled(s, step) && !IsAsking(step)
    ensures OutsidePairing(PhaseOf(Next(s, step), step.w))
  {
    hide Enabled, Next, InSession, Departing, OutsidePairing;
    if step.w in s.phase && InSession(s.phase[step.w]) {
      OwnStep(s, step);
      ServedIsOutside(PhaseOf(Next(s, step), step.w));
    } else if step.w in s.phase && Departing(s.phase[step.w]) {
      DepartingStep(s, step);
      ServedIsOutside(PhaseOf(Next(s, step), step.w));
    } else {
      ArrivingOutside(s, step);
    }
  }

  lemma AskingStep(s: State, step: Step, seen: Option<Socket>, asks: Option<RequestId>)
    requires Enabled(s, step) && IsAsking(step) && KnowsPairing(s.phase[step.w], seen, asks)
    ensures KnowsPairing(PhaseOf(Next(s, step), step.w),
                         if step.ReadSlot? then s.tables.slot else seen, if step.Store? then Some(step.rid) else asks)
  {
    hide IsSnapshot, SlotRead, RequestStored, RequestForwarded, RequestAcknowledged;
    match step
    case Hangup(w) =>
    case ReadSlot(w) => SlotReadKnows(s, w, asks);
    case Store(w, rid) => StoredKnows(s, w, rid);
    case Forward(w) => ForwardedKnows(s, w, seen);
    case Acknowledge(w) => AcknowledgedKnows(s, w, seen);
  }

  // In every run a pairing client's handler goes by the slot it read and the
  // request it stored.
  lemma {:induction false} PairingIsKnown(steps: seq<Step>, w: Socket)
    requires Runs(steps)
    ensures KnowsPairing(PhaseOf(After(steps), w), Seen(steps, w), Asks(steps, w))
  {
    if steps != [] {
      var before, step := steps[..|steps| - 1], steps[|steps| - 1];
      PairingIsKnown(before, w);
      SlotIsLastEntered(before);
      if step.w != w {
        hide Enabled, Next, LastEntered;
        NothingElseMoves(After(before), step, w);
      } else if IsAsking(step) {
        AskingStep(After(before), step, Seen(before, w), Asks(before, w));
        hide Next, LastEntered;
      } else {
        hide Enabled, Next, LastEntered;
        OutsideStep(After(before), step);
      }
    }
  }

  // ----- who is still to get a message

  lemma RouteLeaves(steps: seq<Step>, w: Socket, to: Recipients)
    requires Runs(steps) && w in After(steps).phase && After(steps).phase[w].Relaying?
    ensures var p := PhaseOf(Route(After(steps), w, to), w);
            p.Sending? ==> p.rest == ChosenFor(steps, w, to)
  {
    hide Runs, After, Held, Holder, Closing;
    RoutedIsHeld(steps, w);
    var s := After(steps);
    if s.phase[w].target.Unicast? {
      RegistryIsHolders(steps, s.phase[w].target.id);
    }
    ClosingIsWho(s.phase[w].id, s.phase[w].role);
    ClosingIsNotSending(s.phase[w].id, s.phase[w].role);
  }

  lemma ClosingIsNotSending(id: DeviceId, role: Role)
    ensures !Closing(id, role).Sending?
  {
  }

  lemma DeliverLeaves(s: State, w: Socket)
    requires w in s.phase && s.phase[w].Sending?
    ensures var p := PhaseOf(Deliver(s, w), w);
            p.Sending? ==> s.phase[w].rest != [] && p.rest == s.phase[w].rest[1..]
  {
    hide Tried;
  }

  lemma SendingStep(s: State, step: Step)
    requires Enabled(s, step) && !step.TakeSnapshot? && !step.SendNext?
    ensures var p := PhaseOf(Next(s, step), step.w);
            p.Sending? ==> PhaseOf(s, step.w) == p
  {
    if IsAside(step) {
      hide Enabled, Next, IsAside, SameBooks;
      AsideStep(s, step);
    } else {
      hide IsSnapshot, Hear, AnswerSent, RequestStored, TimedOut;
      match step
      case Store(w, rid) => StoredKnows(s, w, rid); RequestIsNameless(s, w, rid);
      case Timeout(w) => RequestIsNameless(s, w, "");
      case Receive(w, frame) => HearSendsNothing(s, w, frame);
      case SendAnswer(w) => SentPicksNothing(s, w); AnswerSendsNothing(s, w);
    }
  }

  lemma HearSendsNothing(s: State, w: Socket, frame: Frame)
    requires w in s.phase && s.phase[w].Open?
    ensures !PhaseOf(Hear(s, w, frame), w).Sending? && Hear(s, w, frame).outbox == s.outbox
  {
    ClosingIsNotSending(s.phase[w].id, s.phase[w].role);
    hide Closing, Said, EndsReceiver, PopRequest;
  }

  lemma AnswerSendsNothing(s: State, w: Socket)
    requires w in s.phase && s.phase[w].Answering?
    ensures !PhaseOf(AnswerSent(s, w), w).Sending?
  {
  }

  // In every run a handler has left to send to whom the history leaves.
  lemma {:induction false} RestIsLeft(steps: seq<Step>, w: Socket)
    requires Runs(steps)
    ensures var p := PhaseOf(After(steps), w);
            p.Sending? ==> p.rest == Left(steps, w)
  {
    if steps != [] {
      var before, step := steps[..|steps| - 1], steps[|steps| - 1];
      RestIsLeft(before, w);
      if step.w != w {
        hide Enabled, Next;
        NothingElseMoves(After(before), step, w);
      } else if step.TakeSnapshot? {
        RouteLeaves(before, w, step.to);
        hide Route, IsSnapshot, ChosenFor;
      } else if step.SendNext? {
        DeliverLeaves(After(before), w);
        hide Deliver;
      } else {
        hide Enabled, Next;
        SendingStep(After(before), step);
      }
    }
  }

  // ----- which sockets are closed

  // The step closes this socket: its peer hangs up, it fails to authenticate, it
  // waits too long for a pairing answer, there is no desktop to ask, the desktop
  // it found is gone, its id is taken, or its pairing answer is sent on.
  predicate Shuts(before: seq<Step>, step: Step, v: Socket)
    decreases |before|, 1
  {
    match step
    case Hangup(w) => w == v
    case AuthFails(w) => w == v
    case CloseExpired(w) => w == v
    case ReadSlot(w) => w == v && LastEntered(before).None?
    case Forward(w) => w == v && Seen(before, w).Some? && IsShut(before, Seen(before, w).value)
    case TryRegister(w) =>
      w == v && Identity(before, w).Some? && Holder(before, Identity(before, w).value.id).Some?
    case SendAnswer(w) => Picked(before, w).Some? && Asker(before, Picked(before, w).value) == Some(v)
    case _ => false
  }

  predicate IsShut(steps: seq<Step>, v: Socket)
    decreases |steps|, 0
  {
    if steps == [] then false
    else IsShut(steps[..|steps| - 1], v) || Shuts(steps[..|steps| - 1], steps[|steps| - 1], v)
  }

  // The same for one step, told by the handler's phase.
  predicate ShutsNow(s: State, step: Step, v: Socket)
    requires step.w in s.phase
  {
    var p := s.phase[step.w];
    match step
    case Hangup(w) => w == v
    case AuthFails(w) => w == v
    case CloseExpired(w) => w == v
    case ReadSlot(w) => w == v && s.tables.slot.None?
    case Forward(w) => w == v && p.PairForward? && p.desktop in s.closed
    case TryRegister(w) => w == v && p.Authed? && Lookup(s.tables.registry, p.id).Some?
    case SendAnswer(w) => p.Answering? && p.to == v
    case _ => false
  }

  lemma ForwardCloses(s: State, w: Socket)
    requires w in s.phase && s.phase[w].PairForward?
    ensures RequestForwarded(s, w).closed == if s.phase[w].desktop in s.closed then s.closed + {w} else s.closed
  {
    if s.phase[w].desktop in s.closed {
      CloseRetires(s, w);
      assert RequestForwarded(s, w) == CloseAndEnd(s, w);
    }
    hide CloseAndEnd;
  }

  lemma AnswerShuts(s: State, w: Socket)
    requires w in s.phase && s.phase[w].Answering?
    ensures AnswerSent(s, w).closed == s.closed + {s.phase[w].to}
  {
    var to := s.phase[w].to;
    assert to in s.closed ==> s.closed + {to} == s.closed;
  }

  lemma ShutStep(s: State, step: Step, v: Socket)
    requires Inv(s) && Enabled(s, step) && step.w in s.phase
    ensures v in Next(s, step).closed <==> v in s.closed || ShutsNow(s, step, v)
  {
    hide IsSnapshot, CloseAndEnd, SlotRead, RequestForwarded, RequestAcknowledged, TimedOut, Registering, AuthPassed,
         Entered, Hear, Route, Deliver, RegistryLeft, AnswerSent, Closing, Notify, RetiredAt, RegistryFits, SlotFits,
         RequestsFit, LockFits;
    match step
    case AuthFails(w) => CloseRetires(s, w);
    case AuthPasses(w, id, role) => AuthCloses(s, w, id, role);
    case ReadSlot(w) => SlotReadCloses(s, w); CloseRetires(s, w);
    case Forward(w) => ForwardCloses(s, w);
    case Acknowledge(w) => AcknowledgeRetires(s, w);
    case Timeout(w) => TimeoutRetires(s, w);
    case CloseExpired(w) => CloseRetires(s, w);
    case TryRegister(w) => RegisteringDecides(s, w);
    case Enter(w) => EnteredCloses(s, w);
    case LeaveRegistry(w) => EnteredCloses(s, w);
    case Receive(w, frame) => HearCloses(s, w, frame);
    case SendAnswer(w) => AnswerShuts(s, w);
    case TakeSnapshot(w, to) => RelayCloses(s, w, to);
    case SendNext(w) => RelayCloses(s, w, []);
    case Announce(w) => NotifyCloses(s);
    case _ =>
  }

  lemma ShutsByHistory(before: seq<Step>, step: Step, v: Socket)
    requires Runs(before) && Enabled(After(before), step) && step.w in After(before).phase
    requires forall u :: IsShut(before, u) <==> u in After(before).closed
    ensures Shuts(before, step, v) <==> ShutsNow(After(before), step, v)
  {
    hide Runs, After, IsShut, Seen, Asks, Identity, Holder, Picked, Asker, LastEntered, IsSnapshot;
    var w := step.w;
    match step
    case ReadSlot(_) => SlotIsLastEntered(before);
    case Forward(_) => PairingIsKnown(before, w);
    case TryRegister(_) => HandlersAreWhoTheySaid(before, w); RegistryIsHolders(before, After(before).phase[w].id);
    case SendAnswer(_) => PickedIsForAsker(before, w);
    case _ =>
  }

  // In every run the closed sockets are those that the history has shut.
  lemma {:induction false} ClosedIsShut(steps: seq<Step>)
    requires Runs(steps)
    ensures forall v :: IsShut(steps, v) <==> v in After(steps).closed
  {
    if steps != [] {
      var before, step := steps[..|steps| - 1], steps[|steps| - 1];
      ClosedIsShut(before);
      ReachableInv(before);
      forall v
        ensures IsShut(steps, v) <==> v in After(steps).closed
      {
        if step.Connect? {
          hide Inv, Runs;
        } else {
          hide Inv, Next, ShutsNow, Shuts;
          ShutStep(After(before), step, v);
          ShutsByHistory(before, step, v);
        }
      }
    }
  }

  // ----- everything that is sent

  // Sending on a closed socket fails.
  function Goes(before: seq<Step>, m: Sent): seq<Sent> {
    if IsShut(before, m.to) then [] else [m]
  }

  function ToDesktop(before: seq<Step>): seq<Sent> {
    if LastEntered(before).Some? then Goes(before, Notice(LastEntered(before).value)) else []
  }

  // What a step sends: auth_ok, a pairing request to the desktop that was found,
  // the note that it is pending, news of a device to the desktop, a pairing
  // answer to whoever asked, or the next copy of a message.
  function Sends(before: seq<Step>, step: Step): seq<Sent> {
    var w := step.w;
    match step
    case AuthPasses(_, _, _) => Goes(before, Notice(w))
    case Forward(_) =>
      if Seen(before, w).Some? && Asks(before, w).Some?
      then Goes(before, Asked(Seen(before, w).value, Asks(before, w).value)) else []
    case Acknowledge(_) => Goes(before, Notice(w))
    case Enter(_) =>
      if Identity(before, w).Some? && Identity(before, w).value.role.Device? then ToDesktop(before) else []
    case Announce(_) => ToDesktop(before)
    case SendAnswer(_) =>
      var rid := Picked(before, w);
      if rid.Some? && Asker(before, rid.value).Some?
      then Goes(before, Replied(Asker(before, rid.value).value, rid.value)) else []
    case SendNext(_) =>
      if Identity(before, w).Some? && Left(before, w) != [] && Messages(before, Identity(before, w).value.id) != [] then
        var id := Identity(before, w).value.id;
        var said := Messages(before, id);
        Goes(before, Sent.Relayed(Left(before, w)[0].1, id, |said| - 1, said[|said| - 1].body))
      else []
    case _ => []
  }

  function Log(steps: seq<Step>): seq<Sent> {
    if steps == [] then [] else Log(steps[..|steps| - 1]) + Sends(steps[..|steps| - 1], steps[|steps| - 1])
  }

  function Passes(s: State, m: Sent): seq<Sent> { if m.to in s.closed then [] else [m] }

  lemma AuthSends(s: State, w: Socket, id: DeviceId, role: Role)
    ensures AuthPassed(s, w, id, role).outbox == s.outbox + Passes(s, Notice(w))
  {
    if w in s.closed {
      assert AuthPassed(s, w, id, role) == Goto(s, w, Done);
    } else {
      assert AuthPassed(s, w, id, role) == Goto(s.(outbox := s.outbox + [Notice(w)]), w, Authed(id, role));
    }
  }

  lemma ForwardSends(s: State, w: Socket)
    requires w in s.phase && s.phase[w].PairForward?
    ensures RequestForwarded(s, w).outbox == s.outbox + Passes(s, Asked(s.phase[w].desktop, s.phase[w].rid))
  {
    var PairForward(rid, desktop) := s.phase[w];
    if desktop in s.closed {
      assert RequestForwarded(s, w) == CloseAndEnd(s, w);
    } else {
      assert RequestForwarded(s, w) == Goto(s.(outbox := s.outbox + [Asked(desktop, rid)]), w, PairAck(rid));
    }
  }

  lemma AcknowledgeSends(s: State, w: Socket)
    requires w in s.phase && s.phase[w].PairAck?
    ensures RequestAcknowledged(s, w).outbox == s.outbox + Passes(s, Notice(w))
  {
    if w in s.closed {
      assert RequestAcknowledged(s, w) == Goto(s, w, Done);
    }
  }

  lemma NotifySends(s: State, w: Socket, p: Phase)
    ensures Goto(Notify(s), w, p).outbox ==
            s.outbox + if s.tables.slot.Some? then Passes(s, Notice(s.tables.slot.value)) else []
  {
  }

  lemma EnterSends(s: State, w: Socket)
    requires w in s.phase && s.phase[w].Joined?
    ensures Entered(s, w).outbox ==
            s.outbox + if s.phase[w].role.Device? && s.tables.slot.Some?
                       then Passes(s, Notice(s.tables.slot.value)) else []
  {
    NotifySends(s, w, Open(s.phase[w].id, s.phase[w].role));
    hide Notify, Passes;
  }

  lemma AnswerSends(s: State, w: Socket)
    requires w in s.phase && s.phase[w].Answering?
    ensures AnswerSent(s, w).outbox == s.outbox + Passes(s, Replied(s.phase[w].to, s.phase[w].rid))
  {
  }

  lemma DeliverSends(s: State, w: Socket)
    requires w in s.phase && s.phase[w].Sending?
    ensures var Sending(id, _, index, body, rest) := s.phase[w];
            Deliver(s, w).outbox ==
            s.outbox + if rest == [] then [] else Passes(s, Relayed(rest[0].1, id, index, body))
  {
    hide Tried;
  }

  lemma ArrivalSends(s: State, w: Socket)
    requires w in s.phase
    ensures CloseAndEnd(s, w).outbox == s.outbox && SlotRead(s, w).outbox == s.outbox
    ensures s.phase[w].Authed? ==> Registering(s, w).outbox == s.outbox
    ensures s.phase[w].Unregistering? ==> RegistryLeft(s, w).outbox == s.outbox
  {
    assert CloseAndEnd(s, w).outbox == s.outbox;
    hide CloseAndEnd, Register, Unregister;
  }

  lemma RequestSends(s: State, w: Socket, rid: RequestId)
    requires w in s.phase
    ensures s.phase[w].PairStore? ==> RequestStored(s, w, rid).outbox == s.outbox
    ensures s.phase[w].PairWait? ==> TimedOut(s, w).outbox == s.outbox
  {
    hide PopRequest, StoreRequest;
  }

  // What a step sends, told by the handler's phase.
  function SendsNow(s: State, step: Step): seq<Sent>
    requires step.w in s.phase
  {
    var w, p := step.w, s.phase[step.w];
    match step
    case AuthPasses(_, _, _) => Passes(s, Notice(w))
    case Forward(_) => if p.PairForward? then Passes(s, Asked(p.desktop, p.rid)) else []
    case Acknowledge(_) => Passes(s, Notice(w))
    case Enter(_) =>
      if p.Joined? && p.role.Device? && s.tables.slot.Some? then Passes(s, Notice(s.tables.slot.value)) else []
    case Announce(_) => if s.tables.slot.Some? then Passes(s, Notice(s.tables.slot.value)) else []
    case SendAnswer(_) => if p.Answering? then Passes(s, Replied(p.to, p.rid)) else []
    case SendNext(_) =>
      if p.Sending? && p.rest != [] then Passes(s, Relayed(p.rest[0].1, p.id, p.index, p.body)) else []
    case _ => []
  }

  lemma SendsStep(s: State, step: Step)
    requires Enabled(s, step) && step.w in s.phase
    ensures Next(s, step).outbox == s.outbox + SendsNow(s, step)
  {
    assert s.outbox + [] == s.outbox;
    hide IsSnapshot, CloseAndEnd, SlotRead, RequestForwarded, RequestAcknowledged, TimedOut, Registering, AuthPassed,
         Entered, Hear, Route, Deliver, RegistryLeft, AnswerSent, Closing, Notify, RequestStored, Passes;
    match step
    case AuthFails(w) => ArrivalSends(s, w);
    case AuthPasses(w, id, role) => AuthSends(s, w, id, role);
    case ReadSlot(w) => ArrivalSends(s, w);
    case Store(w, rid) => RequestSends(s, w, rid);
    case Forward(w) => ForwardSends(s, w);
    case Acknowledge(w) => AcknowledgeSends(s, w);
    case Timeout(w) => RequestSends(s, w, "");
    case CloseExpired(w) => ArrivalSends(s, w);
    case TryRegister(w) => ArrivalSends(s, w);
    case Enter(w) => EnterSends(s, w);
    case LeaveRegistry(w) => ArrivalSends(s, w);
    case Receive(w, frame) => HearSendsNothing(s, w, frame);
    case SendAnswer(w) => AnswerSends(s, w);
    case TakeSnapshot(w, to) => RouteKeepsOutcome(s, w, to);
    case SendNext(w) => DeliverSends(s, w);
    case Announce(w) => NotifySends(s, w, Done);
    case _ =>
  }

  // The handler that is sending sends the last message that its id has said.
  lemma SendingIsLast(before: seq<Step>, w: Socket)
    requires Runs(before) && w in After(before).phase && After(before).phase[w].Sending?
    ensures var p := After(before).phase[w];
            var said := Messages(before, p.id);
            Identity(before, w) == Some(Who(p.id, p.role)) && p.rest == Left(before, w)
            && p.index + 1 == |said| && p.body == said[p.index].body
  {
    HandlersAreWhoTheySaid(before, w);
    RestIsLeft(before, w);
    ReachableDelivers(before);
    var p := After(before).phase[w];
    HeardIsReceived(before, p.id);
    BodiesAt(Messages(before, p.id));
    assert HasMessage(p);
    hide After, Runs, Identity, Messages, Left, CopiesFit, InOrder, Arrived, ListsFit, Complete, Bodies;
  }

  lemma SendsByHistory(before: seq<Step>, step: Step)
    requires Runs(before) && Enabled(After(before), step) && step.w in After(before).phase
    requires forall u :: IsShut(before, u) <==> u in After(before).closed
    ensures Sends(before, step) == SendsNow(After(before), step)
  {
    hide Runs, After, IsShut, Seen, Asks, Identity, Holder, Picked, Asker, LastEntered, Left, Messages, IsSnapshot;
    var w := step.w;
    match step
    case Forward(_) => PairingIsKnown(before, w);
    case Enter(_) => HandlersAreWhoTheySaid(before, w); SlotIsLastEntered(before);
    case Announce(_) => SlotIsLastEntered(before);
    case SendAnswer(_) => PickedIsForAsker(before, w);
    case SendNext(_) => SendingIsLast(before, w);
    case _ =>
  }

  // In every run the gateway has sent exactly what the history says, in order.
  lemma {:induction false} OutboxIsLog(steps: seq<Step>)
    requires Runs(steps)
    ensures After(steps).outbox == Log(steps)
  {
    if steps != [] {
      var before, step := steps[..|steps| - 1], steps[|steps| - 1];
      OutboxIsLog(before);
      ClosedIsShut(before);
      if step.Connect? {
        hide Runs, IsShut;
      } else {
        hide Next, SendsNow, Sends, IsShut;
        SendsStep(After(before), step);
        SendsByHistory(before, step);
      }
    }
  }
}
