// What a step leaves alone. Most steps neither relay a message nor touch a
// pairing request; only two change the registry.
module GatewayFrames {
  import opened Wrappers
  import opened Gateway

  // The handler is busy relaying, or answering a pairing request.
  predicate Busy(p: Phase) { p.Relaying? || p.Sending? || p.Answering? }

  // At most one message was sent, neither a copy nor a pairing response.
  ghost predicate Quiet(o: seq<Sent>, o': seq<Sent>) {
    o' == o || (|o'| == |o| + 1 && o'[..|o|] == o && (o'[|o|].Notice? || o'[|o|].Asked?))
  }

  ghost predicate OnlyMoves(phase: map<Socket, Phase>, phase': map<Socket, Phase>, w: Socket) {
    phase' == phase || (w in phase' && phase' == phase[w := phase'[w]] && !Busy(phase'[w])
                        && (w in phase ==> !Busy(phase[w])))
  }

  // Nothing relayed, no pairing request touched.
  ghost predicate SameBooks(s: State, s': State) {
    && s'.heard == s.heard && s'.snapshots == s.snapshots && s'.attempts == s.attempts
    && s'.tables.pending == s.tables.pending && s'.asked == s.asked && s'.outcome == s.outcome
    && Quiet(s.outbox, s'.outbox) && s.closed <= s'.closed
  }

  ghost predicate Aside(s: State, s': State, w: Socket) {
    SameBooks(s, s') && OnlyMoves(s.phase, s'.phase, w)
  }

  predicate IsAside(step: Step) {
    !step.Store? && !step.Timeout? && !step.Receive? && !step.SendAnswer? && !step.TakeSnapshot? && !step.SendNext?
  }

  predicate IdleAt(s: State, w: Socket) { w in s.phase && !Busy(s.phase[w]) }

  lemma GotoAside(s: State, mid: State, w: Socket, p: Phase)
    requires SameBooks(s, mid) && mid.phase == s.phase && !Busy(p) && (w in s.phase ==> !Busy(s.phase[w]))
    ensures Aside(s, Goto(mid, w, p), w)
  {
  }

  lemma SendAside(s: State, mid: State, m: Sent)
    requires SameBooks(s, mid) && mid.outbox == s.outbox && !m.Relayed? && !m.Replied?
    ensures SameBooks(s, mid.(outbox := s.outbox + [m]))
  {
  }

  lemma CloseAside(s: State, w: Socket)
    requires IdleAt(s, w)
    ensures Aside(s, CloseAndEnd(s, w), w)
  {
    hide Aside;
    GotoAside(s, s.(closed := s.closed + {w}), w, Done);
  }

  lemma AuthAside(s: State, w: Socket, id: DeviceId, role: Role)
    requires IdleAt(s, w)
    ensures Aside(s, AuthPassed(s, w, id, role), w)
  {
    hide Aside;
    SendAside(s, s, Notice(w));
    if w in s.closed {
      GotoAside(s, s, w, Done);
    } else {
      GotoAside(s, s.(outbox := s.outbox + [Notice(w)]), w, Authed(id, role));
    }
  }

  lemma SlotAside(s: State, w: Socket)
    requires IdleAt(s, w)
    ensures Aside(s, SlotRead(s, w), w)
  {
    hide Aside;
    if s.tables.slot.Some? {
      GotoAside(s, s, w, PairStore(s.tables.slot.value));
    } else {
      CloseAside(s, w);
    }
  }

  lemma ForwardAside(s: State, w: Socket)
    requires w in s.phase && s.phase[w].PairForward?
    ensures Aside(s, RequestForwarded(s, w), w)
  {
    hide Aside;
    var PairForward(rid, desktop) := s.phase[w];
    if desktop in s.closed {
      CloseAside(s, w);
    } else {
      SendAside(s, s, Asked(desktop, rid));
      GotoAside(s, s.(outbox := s.outbox + [Asked(desktop, rid)]), w, PairAck(rid));
    }
  }

  lemma AcknowledgeAside(s: State, w: Socket)
    requires w in s.phase && s.phase[w].PairAck?
    ensures Aside(s, RequestAcknowledged(s, w), w)
  {
    hide Aside;
    if w in s.closed {
      GotoAside(s, s, w, Done);
    } else {
      SendAside(s, s, Notice(w));
      GotoAside(s, s.(outbox := s.outbox + [Notice(w)]), w, PairWait(s.phase[w].rid));
    }
  }

  lemma RegisteringAside(s: State, w: Socket)
    requires w in s.phase && s.phase[w].Authed?
    ensures Aside(s, Registering(s, w), w)
  {
    hide Aside;
    var Authed(id, role) := s.phase[w];
    var r := Register(s.tables, id, w, role);
    if r.1 {
      GotoAside(s, s.(tables := r.0), w, Joined(id, role));
    } else {
      GotoAside(s, s.(lock := Some(w), closed := s.closed + {w}), w, Rejecting);
    }
  }

  lemma NotifyAside(s: State, w: Socket, p: Phase)
    requires IdleAt(s, w) && !Busy(p)
    ensures Aside(s, Goto(Notify(s), w, p), w)
  {
    hide Aside;
    if s.tables.slot.Some? {
      SendAside(s, s, Notice(s.tables.slot.value));
    }
    assert s.outbox + [] == s.outbox;
    GotoAside(s, Notify(s), w, p);
  }

  lemma EnteredAside(s: State, w: Socket)
    requires w in s.phase && s.phase[w].Joined?
    ensures Aside(s, Entered(s, w), w)
  {
    hide Aside, Notify;
    var Joined(id, role) := s.phase[w];
    if role.Desktop? {
      GotoAside(s, s.(tables := SetDesktop(s.tables, w)), w, Open(id, role));
    } else {
      NotifyAside(s, w, Open(id, role));
    }
  }

  lemma SlotLeftAside(s: State, w: Socket, p: Phase)
    requires IdleAt(s, w) && !Busy(p)
    ensures Aside(s, Goto(s.(tables := ClearDesktop(s.tables, w)), w, p), w)
  {
    hide Aside;
    GotoAside(s, s.(tables := ClearDesktop(s.tables, w)), w, p);
  }

  lemma RegistryLeftAside(s: State, w: Socket)
    requires w in s.phase && s.phase[w].Unregistering?
    ensures Aside(s, RegistryLeft(s, w), w)
  {
    hide Aside;
    var r := Unregister(s.tables, s.phase[w].id, w);
    GotoAside(s, s.(tables := r.0), w, if r.1 == Some(Device) then Leaving(s.phase[w].id) else Done);
  }

  lemma AsideStep(s: State, step: Step)
    requires Enabled(s, step) && IsAside(step)
    ensures Aside(s, Next(s, step), step.w)
  {
    assert step.EndOfStream? ==> !Busy(Closing(s.phase[step.w].id, s.phase[step.w].role));
    hide Goto, AuthPassed, CloseAndEnd, SlotRead, RequestStored, RequestForwarded, RequestAcknowledged, TimedOut,
         Registering, Entered, Hear, AnswerSent, Route, Deliver, RegistryLeft, Notify, IsSnapshot, ClearDesktop,
         Closing, Aside;
    match step
    case Connect(w) => GotoAside(s, s, w, AwaitAuth);
    case Hangup(w) => HangupAside(s, w);
    case AuthFails(w) => CloseAside(s, w);
    case AuthPasses(w, id, role) => AuthAside(s, w, id, role);
    case BeginPairing(w) => GotoAside(s, s, w, PairStart);
    case ReadSlot(w) => SlotAside(s, w);
    case Forward(w) => ForwardAside(s, w);
    case Acknowledge(w) => AcknowledgeAside(s, w);
    case ClientGone(w) => GotoAside(s, s, w, Done);
    case CloseExpired(w) => CloseAside(s, w);
    case TryRegister(w) => RegisteringAside(s, w);
    case FinishReject(w) => GotoAside(s, s.(lock := None), w, Done);
    case Enter(w) => EnteredAside(s, w);
    case EndOfStream(w) => GotoAside(s, s, w, Closing(s.phase[w].id, s.phase[w].role));
    case LeaveSlot(w) => SlotLeftAside(s, w, Unregistering(s.phase[w].id, Desktop));
    case LeaveRegistry(w) => RegistryLeftAside(s, w);
    case Announce(w) => NotifyAside(s, w, Done);
  }

  lemma HangupAside(s: State, w: Socket)
    ensures Aside(s, s.(closed := s.closed + {w}), w)
  {
  }

  // ----- the registry

  lemma ArrivalKeepsTables(s: State, w: Socket, id: DeviceId, role: Role)
    ensures AuthPassed(s, w, id, role).tables == s.tables
    ensures CloseAndEnd(s, w).tables == s.tables
    ensures SlotRead(s, w).tables == s.tables
  {
    assert CloseAndEnd(s, w).tables == s.tables;
    hide CloseAndEnd;
  }

  lemma PairingKeepsRegistry(s: State, w: Socket, rid: RequestId)
    requires w in s.phase
    ensures s.phase[w].PairStore? ==> RequestStored(s, w, rid).tables.registry == s.tables.registry
    ensures s.phase[w].PairForward? ==> RequestForwarded(s, w).tables == s.tables
    ensures s.phase[w].PairAck? ==> RequestAcknowledged(s, w).tables == s.tables
    ensures s.phase[w].PairWait? ==> TimedOut(s, w).tables.registry == s.tables.registry
    ensures s.phase[w].Answering? ==> AnswerSent(s, w).tables == s.tables
  {
  }

  // What hearing leaves alone, as far as claiming a request does.
  lemma ClaimKeepsTables(s: State, w: Socket, answer: Answer)
    requires w in s.phase && s.phase[w].Open?
    ensures Claim(s, w, answer).tables.registry == s.tables.registry
    ensures Claim(s, w, answer).tables.slot == s.tables.slot
  {
  }

  lemma HearKeepsTables(s: State, w: Socket, frame: Frame)
    requires w in s.phase && s.phase[w].Open?
    ensures Hear(s, w, frame).tables.registry == s.tables.registry
    ensures Hear(s, w, frame).tables.slot == s.tables.slot
  {
    hide Closing, Said, EndsReceiver, Claim;
    if frame.Object? && frame.answer.Some? {
      ClaimKeepsTables(s, w, frame.answer.value);
    }
  }

  lemma RelayKeepsTables(s: State, w: Socket, to: Recipients)
    requires w in s.phase
    ensures s.phase[w].Relaying? ==> Route(s, w, to).tables == s.tables
    ensures s.phase[w].Sending? ==> Deliver(s, w).tables == s.tables
  {
    hide Closing, Tried;
  }

  predicate IsPairing(step: Step) {
    step.Store? || step.Forward? || step.Acknowledge? || step.Timeout? || step.SendAnswer?
  }

  lemma PairingStepKeepsRegistry(s: State, step: Step)
    requires Enabled(s, step) && IsPairing(step)
    ensures Next(s, step).tables.registry == s.tables.registry
  {
    PairingKeepsRegistry(s, step.w, if step.Store? then step.rid else "");
    hide RequestStored, RequestForwarded, RequestAcknowledged, TimedOut, AnswerSent;
  }

  // Every step but two leaves the registry alone.
  lemma RegistryUntouched(s: State, step: Step)
    requires Enabled(s, step) && !step.TryRegister? && !step.LeaveRegistry?
    ensures Next(s, step).tables.registry == s.tables.registry
  {
    hide AuthPassed, CloseAndEnd, SlotRead, RequestStored, RequestForwarded, RequestAcknowledged, TimedOut,
         Hear, AnswerSent, Route, Deliver, Notices, IsSnapshot, Closing;
    if IsPairing(step) {
      hide Enabled, Next;
      PairingStepKeepsRegistry(s, step);
    } else {
      match step
      case AuthFails(w) => ArrivalKeepsTables(s, w, "", Device);
      case AuthPasses(w, id, role) => ArrivalKeepsTables(s, w, id, role);
      case ReadSlot(w) => ArrivalKeepsTables(s, w, "", Device);
      case CloseExpired(w) => ArrivalKeepsTables(s, w, "", Device);
      case Receive(w, frame) => HearKeepsTables(s, w, frame);
      case TakeSnapshot(w, to) => RelayKeepsTables(s, w, to);
      case SendNext(w) => RelayKeepsTables(s, w, []);
      case _ =>
    }
  }

  // ----- the desktop slot

  lemma PairingFunctionsKeepSlot(s: State, w: Socket, rid: RequestId)
    requires w in s.phase
    ensures s.phase[w].PairStore? ==> RequestStored(s, w, rid).tables.slot == s.tables.slot
    ensures s.phase[w].PairForward? ==> RequestForwarded(s, w).tables.slot == s.tables.slot
    ensures s.phase[w].PairAck? ==> RequestAcknowledged(s, w).tables.slot == s.tables.slot
    ensures s.phase[w].PairWait? ==> TimedOut(s, w).tables.slot == s.tables.slot
    ensures s.phase[w].Answering? ==> AnswerSent(s, w).tables.slot == s.tables.slot
  {
  }

  lemma PairingKeepsSlot(s: State, step: Step)
    requires Enabled(s, step) && IsPairing(step)
    ensures Next(s, step).tables.slot == s.tables.slot
  {
    PairingFunctionsKeepSlot(s, step.w, if step.Store? then step.rid else "");
    hide RequestStored, RequestForwarded, RequestAcknowledged, TimedOut, AnswerSent, IsSnapshot, AuthPassed,
         CloseAndEnd, SlotRead, Registering, Entered, Hear, Route, Deliver, RegistryLeft, Notify, Closing, ClearDesktop;
  }

  lemma RegisteringKeepsSlot(s: State, w: Socket)
    requires w in s.phase
    ensures s.phase[w].Authed? ==> Registering(s, w).tables.slot == s.tables.slot
    ensures s.phase[w].Unregistering? ==> RegistryLeft(s, w).tables.slot == s.tables.slot
  {
  }

  // Every step but two leaves the slot alone.
  lemma SlotUntouched(s: State, step: Step)
    requires Enabled(s, step) && !step.Enter? && !step.LeaveSlot?
    ensures Next(s, step).tables.slot == s.tables.slot
  {
    hide AuthPassed, CloseAndEnd, SlotRead, RequestStored, RequestForwarded, RequestAcknowledged, TimedOut,
         Registering, RegistryLeft, Hear, AnswerSent, Route, Deliver, Notices, IsSnapshot, Closing;
    if IsPairing(step) {
      hide Enabled, Next;
      PairingKeepsSlot(s, step);
    } else {
      match step
      case AuthFails(w) => ArrivalKeepsTables(s, w, "", Device);
      case AuthPasses(w, id, role) => ArrivalKeepsTables(s, w, id, role);
      case ReadSlot(w) => ArrivalKeepsTables(s, w, "", Device);
      case CloseExpired(w) => ArrivalKeepsTables(s, w, "", Device);
      case TryRegister(w) => RegisteringKeepsSlot(s, w);
      case LeaveRegistry(w) => RegisteringKeepsSlot(s, w);
      case Receive(w, frame) => HearKeepsTables(s, w, frame);
      case TakeSnapshot(w, to) => RelayKeepsTables(s, w, to);
      case SendNext(w) => RelayKeepsTables(s, w, []);
      case _ =>
    }
  }
}
