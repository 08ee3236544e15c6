// Which sockets the gateway closes, over every run, and what that leaves as the
// causes for which a registered handler's session ends.
module GatewayClosing {
  import Labels = RelayLabels
  import opened Wrappers
  import opened Gateway
  import opened GatewayFrames
  import opened GatewayInvariant
  import opened GatewayPairing
  import opened GatewayDepartures
  import opened GatewayHistory
  import opened GatewayAnswers

  // The phases of a handler whose socket the gateway itself may have closed:
  // rejected as a duplicate, waiting for a pairing answer, or over.
  predicate Retired(p: Phase) {
    p.Rejecting? || p.PairForward? || p.PairAck? || p.PairWait? || p.PairExpired? || p.Done?
  }

  predicate RetiredAt(s: State, w: Socket) { w in s.phase && Retired(s.phase[w]) }

  // ----- one step

  lemma ForwardRetires(s: State, w: Socket)
    requires w in s.phase && s.phase[w].PairForward?
    ensures RetiredAt(RequestForwarded(s, w), w)
    ensures forall v :: v in RequestForwarded(s, w).closed ==> v in s.closed || v == w
  {
  }

  lemma AcknowledgeRetires(s: State, w: Socket)
    requires w in s.phase && s.phase[w].PairAck?
    ensures RetiredAt(RequestAcknowledged(s, w), w) && RequestAcknowledged(s, w).closed == s.closed
  {
  }

  lemma TimeoutRetires(s: State, w: Socket)
    requires w in s.phase && s.phase[w].PairWait?
    ensures RetiredAt(TimedOut(s, w), w) && TimedOut(s, w).closed == s.closed
  {
    hide PopRequest;
  }

  lemma CloseRetires(s: State, w: Socket)
    ensures RetiredAt(CloseAndEnd(s, w), w) && CloseAndEnd(s, w).closed == s.closed + {w}
  {
  }

  lemma RetiredOwnStep(s: State, step: Step)
    requires Enabled(s, step) && RetiredAt(s, step.w)
    ensures RetiredAt(Next(s, step), step.w)
  {
    hide IsSnapshot, CloseAndEnd, RequestForwarded, RequestAcknowledged, TimedOut;
    match step
    case Hangup(w) =>
    case Forward(w) => ForwardRetires(s, w);
    case Acknowledge(w) => AcknowledgeRetires(s, w);
    case ClientGone(w) =>
    case Timeout(w) => TimeoutRetires(s, w);
    case CloseExpired(w) => CloseRetires(s, w);
    case FinishReject(w) =>
  }

  // A retired handler never serves again.
  lemma RetiredStep(s: State, step: Step, v: Socket)
    requires Enabled(s, step) && RetiredAt(s, v)
    ensures RetiredAt(Next(s, step), v)
  {
    hide Enabled, Next, Retired;
    if step.w == v {
      RetiredOwnStep(s, step);
    } else {
      NothingElseMoves(s, step, v);
    }
  }

  lemma RegisteringCloses(s: State, w: Socket)
    requires w in s.phase && s.phase[w].Authed?
    ensures var lost := s.phase[w].id in s.tables.registry && s.tables.registry[s.phase[w].id] != w;
            && Registering(s, w).closed == s.closed + (if lost then {w} else {})
            && (lost ==> RetiredAt(Registering(s, w), w))
  {
    assert s.closed + {} == s.closed;
  }

  lemma SlotReadCloses(s: State, w: Socket)
    ensures s.tables.slot.Some? ==> SlotRead(s, w).closed == s.closed
    ensures s.tables.slot.None? ==> SlotRead(s, w) == CloseAndEnd(s, w)
  {
    hide CloseAndEnd;
  }

  lemma AuthCloses(s: State, w: Socket, id: DeviceId, role: Role)
    ensures AuthPassed(s, w, id, role).closed == s.closed
  {
    if w in s.closed {
      assert AuthPassed(s, w, id, role) == Goto(s, w, Done);
    } else {
      assert AuthPassed(s, w, id, role) == Goto(s.(outbox := s.outbox + [Notice(w)]), w, Authed(id, role));
    }
  }

  lemma AnswerCloses(s: State, w: Socket)
    requires w in s.phase && s.phase[w].Answering?
    ensures AnswerSent(s, w).closed == s.closed || AnswerSent(s, w).closed == s.closed + {s.phase[w].to}
  {
  }

  // Whoever an answer is for is waiting for it, or has stopped to.
  lemma AskerIsRetired(s: State, w: Socket)
    requires Inv(s) && PairingFits(s) && w in s.phase && s.phase[w].Answering?
    ensures RetiredAt(s, s.phase[w].to) && s.phase[w].to != w
  {
    var Answering(_, rid, to) := s.phase[w];
    assert rid in s.outcome && s.outcome[rid] == Claimed(w) && to == s.asked[rid] && rid in s.asked;
    hide RepliesFit, OutcomesFit, RegistryFits, SlotFits, LockFits;
  }

  lemma EnteredCloses(s: State, w: Socket)
    requires w in s.phase
    ensures s.phase[w].Joined? ==> Entered(s, w).closed == s.closed
    ensures s.phase[w].Unregistering? ==> RegistryLeft(s, w).closed == s.closed
  {
    hide Notices, Unregister;
  }

  lemma HearCloses(s: State, w: Socket, frame: Frame)
    requires w in s.phase && s.phase[w].Open?
    ensures Hear(s, w, frame).closed == s.closed
  {
    hide Closing, Said, EndsReceiver, PopRequest;
  }

  lemma RelayCloses(s: State, w: Socket, to: Recipients)
    requires w in s.phase
    ensures s.phase[w].Relaying? ==> Route(s, w, to).closed == s.closed
    ensures s.phase[w].Sending? ==> Deliver(s, w).closed == s.closed
  {
    hide Closing, Chosen, Tried;
  }

  // A socket is closed by its own peer or by the gateway, and then its handler
  // is retired.
  lemma ClosedStep(s: State, step: Step, v: Socket)
    requires Inv(s) && PairingFits(s) && Enabled(s, step) && v in Next(s, step).closed && v !in s.closed
    ensures step == Hangup(v) || RetiredAt(Next(s, step), v)
  {
    if step.SendAnswer? {
      AnswerCloses(s, step.w);
      AskerIsRetired(s, step.w);
      var to := s.phase[step.w].to;
      hide Inv, PairingFits;
      assert v == to by { hide Enabled, RetiredAt; }
      RetiredStep(s, step, to);
      hide Enabled, Next;
    } else {
      hide Inv, PairingFits;
      ArrivalCloses(s, step, v);
    }
  }

  lemma ArrivalCloses(s: State, step: Step, v: Socket)
    requires Enabled(s, step) && !step.SendAnswer? && v in Next(s, step).closed && v !in s.closed
    ensures step == Hangup(v) || RetiredAt(Next(s, step), v)
  {
    hide IsSnapshot, CloseAndEnd, SlotRead, RequestForwarded, RequestAcknowledged, TimedOut, Registering, AuthPassed,
         Entered, Hear, Route, Deliver, RegistryLeft, Closing, Notify, Retired;
    match step
    case AuthFails(w) => CloseRetires(s, w);
    case AuthPasses(w, id, role) => AuthCloses(s, w, id, role);
    case ReadSlot(w) => SlotReadCloses(s, w); CloseRetires(s, w);
    case Forward(w) => ForwardRetires(s, w);
    case Acknowledge(w) => AcknowledgeRetires(s, w);
    case Timeout(w) => TimeoutRetires(s, w);
    case CloseExpired(w) => CloseRetires(s, w);
    case TryRegister(w) => RegisteringCloses(s, w);
    case Enter(w) => EnteredCloses(s, w);
    case LeaveRegistry(w) => EnteredCloses(s, w);
    case Receive(w, frame) => HearCloses(s, w, frame);
    case TakeSnapshot(w, to) => RelayCloses(s, w, to);
    case SendNext(w) => RelayCloses(s, w, []);
    case Announce(w) => NotifyCloses(s);
    case _ =>
  }

  lemma NotifyCloses(s: State)
    ensures Notify(s).closed == s.closed
  {
    hide Notices;
  }

  // ----- over runs

  // In every run a closed socket was hung up by its own peer, or its handler is
  // retired.
  lemma {:induction false} ClosedForCause(steps: seq<Step>, v: Socket)
    requires Runs(steps) && v in After(steps).closed
    ensures Hangup(v) in steps || RetiredAt(After(steps), v)
  {
    if steps != [] {
      var before, step := steps[..|steps| - 1], steps[|steps| - 1];
      ReachableInv(before);
      ReachablePairs(before);
      hide Inv, PairingFits, Enabled, Next, RetiredAt;
      if v !in After(before).closed {
        ClosedStep(After(before), step, v);
        assert step in steps;
      } else {
        ClosedForCause(before, v);
        assert forall st :: st in before ==> st in steps;
        if RetiredAt(After(before), v) {
          RetiredStep(After(before), step, v);
        }
      }
    }
  }

  // The gateway never closes the socket of a handler in its session: if it is
  // closed, its own peer has hung up.
  lemma ClosedInSessionIsHungUp(steps: seq<Step>, w: Socket)
    requires Runs(steps)
    ensures Serving(After(steps), w) && w in After(steps).closed ==> Hangup(w) in steps
  {
    if Serving(After(steps), w) && w in After(steps).closed {
      ClosedForCause(steps, w);
    }
  }

  lemma ClosedStaysStep(s: State, step: Step, v: Socket)
    requires Enabled(s, step) && v in s.closed
    ensures v in Next(s, step).closed
  {
    if IsAside(step) {
      hide Enabled, Next, IsAside, OnlyMoves;
      AsideStep(s, step);
    } else if step.Receive? || step.TakeSnapshot? || step.SendNext? {
      hide IsSnapshot, Hear, Route, Deliver;
      match step
      case Receive(w, frame) => HearCloses(s, w, frame);
      case TakeSnapshot(w, to) => RelayCloses(s, w, to);
      case SendNext(w) => RelayCloses(s, w, []);
    } else {
      hide PopRequest, StoreRequest;
    }
  }

  lemma {:induction false} RetiredStays(steps: seq<Step>, later: seq<Step>, w: Socket)
    requires Runs(steps + later)
    ensures Runs(steps)
    ensures RetiredAt(After(steps), w) && w in After(steps).closed ==>
              RetiredAt(After(steps + later), w) && w in After(steps + later).closed
    decreases |later|
  {
    if later == [] {
      assert steps + later == steps;
    } else {
      var shorter, step := later[..|later| - 1], later[|later| - 1];
      assert (steps + later)[..|steps + later| - 1] == steps + shorter;
      RetiredStays(steps, shorter, w);
      hide RetiredAt, Enabled, Next;
      if RetiredAt(After(steps), w) && w in After(steps).closed {
        RetiredStep(After(steps + shorter), step, w);
        ClosedStaysStep(After(steps + shorter), step, w);
      }
    }
  }

  // ----- two sockets after one id

  lemma RegisteringDecides(s: State, w: Socket)
    requires Inv(s) && w in s.phase && s.phase[w].Authed?
    ensures var Authed(id, role) := s.phase[w];
            var s' := Registering(s, w);
            if id in s.tables.registry then
              s.tables.registry[id] != w && s'.tables == s.tables && s'.closed == s.closed + {w}
              && s'.phase == s.phase[w := Rejecting]
            else
              Lookup(s'.tables.registry, id) == Some(w) && s'.closed == s.closed
              && s'.phase == s.phase[w := Joined(id, role)]
  {
    hide SlotFits, RequestsFit, LockFits;
    assert s.phase[w].id in s.tables.registry ==> s.tables.registry[s.phase[w].id] != w;
    hide RegistryFits;
  }

  // Trying for an id that another socket holds closes the newcomer's socket and
  // nothing else; trying for a free one registers it and closes nothing.
  lemma RaceIsDecided(before: seq<Step>, w: Socket)
    requires Runs(before + [TryRegister(w)])
    ensures Runs(before) && Identity(before, w).Some?
    ensures var Who(id, role) := Identity(before, w).value;
            var s, s' := After(before), After(before + [TryRegister(w)]);
            match Holder(before, id)
            case Some(incumbent) =>
              incumbent != w && s'.tables == s.tables && s'.closed == s.closed + {w}
              && s'.phase == s.phase[w := Rejecting]
            case None =>
              Lookup(s'.tables.registry, id) == Some(w) && s'.closed == s.closed
              && s'.phase == s.phase[w := Joined(id, role)]
  {
    var all := before + [TryRegister(w)];
    assert all[..|all| - 1] == before;
    HandlersAreWhoTheySaid(before, w);
    RegistryIsHolders(before, After(before).phase[w].id);
    ReachableInv(before);
    RegisteringDecides(After(before), w);
    hide Registering, Identity, Holder, Inv;
  }

  // The one that loses stays closed, never serves and never holds any id.
  lemma LoserNeverServes(before: seq<Step>, w: Socket, later: seq<Step>, id: DeviceId)
    requires Runs(before + [TryRegister(w)] + later)
    requires Identity(before, w).Some? && Holder(before, Identity(before, w).value.id).Some?
    ensures var s := After(before + [TryRegister(w)] + later);
            w in s.closed && !Serving(s, w) && Holder(before + [TryRegister(w)] + later, id) != Some(w)
  {
    hide Runs, After, Holder, Identity;
    var upto := before + [TryRegister(w)];
    EarlierRuns(upto, later);
    RaceIsDecided(before, w);
    assert RetiredAt(After(upto), w) && w in After(upto).closed;
    RetiredStays(upto, later, w);
    RegistryIsHolders(upto + later, id);
    ReachableInv(upto + later);
    RetiredHoldsNothing(After(upto + later), w, id);
    hide Inv, Retired;
  }

  lemma RetiredHoldsNothing(s: State, w: Socket, id: DeviceId)
    requires Inv(s) && RetiredAt(s, w)
    ensures !Serving(s, w) && Lookup(s.tables.registry, id) != Some(w)
  {
    hide SlotFits, RequestsFit, LockFits;
  }

  // ----- what ends a session

  // The frame cannot be handled: it cannot be read, is no object, or is one to be
  // passed on whose labels for the log cannot be computed.
  predicate Unmanageable(role: Role, frame: Frame) {
    frame.Unreadable? || frame.NotObject?
    || (frame.Object? && !(role.Desktop? && frame.answer.Some?) && !IsRelayable(role, frame))
  }

  lemma UnmanageableEnds(role: Role, frame: Frame)
    ensures EndsReceiver(role, frame) <==> Unmanageable(role, frame)
  {
    hide Labels.LabelsRaise;
  }

  // By the steps: the peer has hung up, the peer has sent a frame that cannot be
  // handled or a target that cannot be looked up, or the pairing client whose
  // answer it sends on is gone.
  ghost predicate IsCause(before: seq<Step>, step: Step)
    requires Runs(before)
  {
    var w := step.w;
    match step
    case EndOfStream(_) => Hangup(w) in before
    case Receive(_, frame) => Identity(before, w).Some? && Unmanageable(Identity(before, w).value.role, frame)
    case TakeSnapshot(_, _) => Held(before, w).Some? && Held(before, w).value.target.Unhashable?
    case SendAnswer(_) =>
      var rid := Picked(before, w);
      rid.Some? && Asker(before, rid.value).Some? && Asker(before, rid.value).value in After(before).closed
    case _ => false
  }

  // The steps that end a session are those with such a cause.
  lemma EndsForCause(before: seq<Step>, step: Step)
    requires Runs(before) && Enabled(After(before), step) && step.w in After(before).phase
    ensures EndsSession(After(before), step) <==> IsCause(before, step)
  {
    hide Runs, After, Identity, Held, Picked, Asker, EndsReceiver, Unmanageable, IsSnapshot;
    var s, w := After(before), step.w;
    match step
    case EndOfStream(_) => ClosedInSessionIsHungUp(before, w);
    case Receive(_, frame) => ReceiverIsWho(before, step); UnmanageableEnds(s.phase[w].role, frame);
    case TakeSnapshot(_, _) => RoutedIsHeld(before, w);
    case SendAnswer(_) => PickedIsForAsker(before, w);
    case _ =>
  }

  // The session of w has a cause to end at step k.
  ghost predicate CauseAt(steps: seq<Step>, k: nat, w: Socket)
    requires k < |steps|
  {
    Runs(steps[..k]) && steps[k].w == w && IsCause(steps[..k], steps[k])
  }

  ghost predicate CausedSince(steps: seq<Step>, from: nat, w: Socket) {
    exists k :: from <= k < |steps| && CauseAt(steps, k, w)
  }

  lemma EndsAtCause(steps: seq<Step>, k: nat, w: Socket)
    requires Runs(steps) && k < |steps|
    ensures EndsAt(steps, k, w) <==> CauseAt(steps, k, w)
  {
    PrefixRuns(steps, k);
    PrefixRuns(steps, k + 1);
    assert steps[..k + 1][..k] == steps[..k];
    hide Next;
    assert steps[k].Connect? ==> !IsCause(steps[..k], steps[k]);
    assert !steps[k].Connect? ==> steps[k].w in After(steps[..k]).phase;
    hide EndsSession, IsCause, Enabled;
    if steps[k].w == w && !steps[k].Connect? {
      EndsForCause(steps[..k], steps[k]);
    }
  }

  lemma CausedExactly(steps: seq<Step>, from: nat, w: Socket)
    requires Runs(steps)
    ensures EndedSince(steps, from, w) <==> CausedSince(steps, from, w)
  {
    hide EndsAt, CauseAt;
    forall k: nat | k < |steps|
      ensures EndsAt(steps, k, w) <==> CauseAt(steps, k, w)
    {
      EndsAtCause(steps, k, w);
    }
  }

  // A session goes on until one of those causes, whatever other handlers do.
  lemma SessionEndsForCause(steps: seq<Step>, from: nat, w: Socket)
    requires Runs(steps) && from <= |steps|
    ensures Runs(steps[..from])
    ensures Serving(After(steps[..from]), w) ==> (Serving(After(steps), w) <==> !CausedSince(steps, from, w))
  {
    SessionLastsExactly(steps, from, w);
    CausedExactly(steps, from, w);
    NeverBoth(PhaseOf(After(steps), w));
    hide CausedSince, EndedSince, Runs, After, InSession, Departing;
  }

  // An id stays with the socket that holds it until its session has such a cause
  // to end: no duplicate, no other handler and nothing the gateway does takes it.
  lemma {:induction false} IncumbentStaysInSession(steps: seq<Step>, from: nat, id: DeviceId)
    requires Runs(steps) && from <= |steps|
    ensures Runs(steps[..from])
    ensures var first := After(steps[..from]);
            var incumbent := Holder(steps[..from], id);
            incumbent.Some? && Serving(first, incumbent.value) && !CausedSince(steps, from, incumbent.value) ==>
              Holder(steps, id) == incumbent && Serving(After(steps), incumbent.value)
    decreases |steps|
  {
    PrefixRuns(steps, from);
    if from == |steps| {
      assert steps[..from] == steps;
    } else {
      var before, step := steps[..|steps| - 1], steps[|steps| - 1];
      IncumbentStaysInSession(before, from, id);
      assert before[..from] == steps[..from];
      var incumbent := Holder(steps[..from], id);
      if incumbent.Some? && Serving(After(steps[..from]), incumbent.value)
         && !CausedSince(steps, from, incumbent.value) {
        var w := incumbent.value;
        CausedExactly(steps, from, w);
        CausedExactly(before, from, w);
        EndedLater(steps, from, w);
        SessionEndsForCause(steps, from, w);
        StillServing(After(before), step, w);
        hide Next, EndedSince, CausedSince, Serving;
      }
    }
  }
}
