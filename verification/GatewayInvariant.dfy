// What every reachable state of the gateway satisfies: the registry, the roles,
// the desktop slot, the pairing requests and the lock fit the handlers' phases.
module GatewayInvariant {
  import opened Wrappers
  import opened Gateway
  import opened GatewayFrames

  // The handler holds its device id in the registry.
  predicate Registered(p: Phase) {
    p.Joined? || p.Open? || p.Answering? || p.Relaying? || p.Sending? || p.ClosingSlot? || p.Unregistering?
  }

  function RoleOf(p: Phase): Role
    requires Registered(p)
  {
    if p.Answering? || p.ClosingSlot? then Desktop else p.role
  }

  // The handler may be the one in the desktop slot.
  predicate MayHoldSlot(p: Phase) {
    Registered(p) && RoleOf(p).Desktop? && !p.Joined? && !p.Unregistering?
  }

  // The handler asked for pairing and has stored its request.
  predicate AskedFor(p: Phase, rid: RequestId) {
    p == PairAck(rid) || p == PairWait(rid) || (p.PairForward? && p.rid == rid)
  }

  type Phases = map<Socket, Phase>

  // Registered handlers and registry entries are the same thing, and the role
  // map has exactly the registry's keys.
  ghost predicate RegistryFits(phase: Phases, registry: map<DeviceId, Socket>, roles: map<DeviceId, Role>) {
    && roles.Keys == registry.Keys
    && (forall w :: w in phase && Registered(phase[w]) ==>
          && phase[w].id in registry && registry[phase[w].id] == w && roles[phase[w].id] == RoleOf(phase[w]))
    && (forall id :: id in registry ==>
          && registry[id] in phase && Registered(phase[registry[id]]) && phase[registry[id]].id == id)
  }

  ghost predicate SlotFits(phase: Phases, slot: Option<Socket>) {
    slot.Some? ==> slot.value in phase && MayHoldSlot(phase[slot.value])
  }

  // A stored request is one that was asked, by a handler still pairing or gone.
  ghost predicate RequestsFit(phase: Phases, pending: map<RequestId, Socket>, asked: map<RequestId, Socket>) {
    && (forall rid :: rid in pending ==>
          && rid in asked && asked[rid] == pending[rid] && asked[rid] in phase
          && (AskedFor(phase[asked[rid]], rid) || phase[asked[rid]].Done?))
    && (forall rid :: rid in asked ==>
          asked[rid] in phase &&
          (AskedFor(phase[asked[rid]], rid) || phase[asked[rid]].PairExpired? || phase[asked[rid]].Done?))
    && (forall w, rid :: w in phase && AskedFor(phase[w], rid) ==> rid in asked && asked[rid] == w)
  }

  ghost predicate LockFits(phase: Phases, lock: Option<Socket>) {
    && (lock.Some? ==> lock.value in phase && phase[lock.value].Rejecting?)
    && (forall w :: w in phase && phase[w].Rejecting? ==> lock == Some(w))
  }

  ghost predicate Inv(s: State) {
    && RegistryFits(s.phase, s.tables.registry, s.tables.roles)
    && SlotFits(s.phase, s.tables.slot)
    && RequestsFit(s.phase, s.tables.pending, s.asked)
    && LockFits(s.phase, s.lock)
  }

  // ----- how a handler's move keeps each part

  lemma RegistryQuiet(phase: Phases, registry: map<DeviceId, Socket>, roles: map<DeviceId, Role>, w: Socket, p: Phase)
    requires RegistryFits(phase, registry, roles) && !Registered(p)
    requires w in phase ==> !Registered(phase[w])
    ensures RegistryFits(phase[w := p], registry, roles)
  {
  }

  lemma RegistryGoesOn(phase: Phases, registry: map<DeviceId, Socket>, roles: map<DeviceId, Role>, w: Socket, p: Phase)
    requires RegistryFits(phase, registry, roles) && w in phase
    requires Registered(phase[w]) && Registered(p) && p.id == phase[w].id && RoleOf(p) == RoleOf(phase[w])
    ensures RegistryFits(phase[w := p], registry, roles)
  {
    hide RoleOf;
  }

  lemma RegistryAdds(phase: Phases, registry: map<DeviceId, Socket>, roles: map<DeviceId, Role>,
                     w: Socket, id: DeviceId, role: Role)
    requires RegistryFits(phase, registry, roles) && id !in registry
    requires w in phase ==> !Registered(phase[w])
    ensures RegistryFits(phase[w := Joined(id, role)], registry[id := w], roles[id := role])
  {
  }

  lemma RegistryDrops(phase: Phases, registry: map<DeviceId, Socket>, roles: map<DeviceId, Role>, w: Socket, p: Phase)
    requires RegistryFits(phase, registry, roles) && w in phase && Registered(phase[w]) && !Registered(p)
    ensures var id := phase[w].id;
            RegistryFits(phase[w := p], registry - {id}, roles - {id})
  {
    hide RoleOf;
  }

  lemma SlotGoesOn(phase: Phases, slot: Option<Socket>, w: Socket, p: Phase)
    requires SlotFits(phase, slot)
    requires w in phase && MayHoldSlot(phase[w]) ==> MayHoldSlot(p)
    ensures SlotFits(phase[w := p], slot)
  {
  }

  // Two phases of one handler stand alike towards the request it asked, if any.
  ghost predicate PairingGoesOn(before: Phase, after: Phase) {
    && (forall rid :: AskedFor(after, rid) ==> AskedFor(before, rid))
    && (forall rid :: AskedFor(before, rid) ==> AskedFor(after, rid) || after.Done?)
    && (before.PairExpired? ==> after.PairExpired? || after.Done?)
    && (before.Done? ==> after.Done?)
  }

  lemma RequestsGoOn(phase: Phases, pending: map<RequestId, Socket>, asked: map<RequestId, Socket>, w: Socket, p: Phase)
    requires RequestsFit(phase, pending, asked)
    requires if w in phase then PairingGoesOn(phase[w], p) else forall rid :: !AskedFor(p, rid)
    ensures RequestsFit(phase[w := p], pending, asked)
  {
    hide AskedFor;
  }

  lemma RequestsAdd(phase: Phases, pending: map<RequestId, Socket>, asked: map<RequestId, Socket>,
                    w: Socket, rid: RequestId, desktop: Socket)
    requires RequestsFit(phase, pending, asked) && rid !in asked
    requires w in phase && phase[w].PairStore?
    ensures RequestsFit(phase[w := PairForward(rid, desktop)], pending[rid := w], asked[rid := w])
  {
    var p := PairForward(rid, desktop);
    assert forall r :: AskedFor(p, r) <==> r == rid;
    assert forall r :: !AskedFor(phase[w], r);
    hide AskedFor;
  }

  lemma RequestsDrop(phase: Phases, pending: map<RequestId, Socket>, asked: map<RequestId, Socket>, rid: RequestId)
    requires RequestsFit(phase, pending, asked)
    ensures RequestsFit(phase, pending - {rid}, asked)
  {
    hide AskedFor;
  }

  lemma RequestsExpire(phase: Phases, pending: map<RequestId, Socket>, asked: map<RequestId, Socket>,
                       w: Socket, rid: RequestId)
    requires RequestsFit(phase, pending, asked) && w in phase && phase[w] == PairWait(rid)
    ensures RequestsFit(phase[w := PairExpired], pending - {rid}, asked)
  {
    assert forall r :: AskedFor(phase[w], r) ==> r == rid;
    assert forall r :: !AskedFor(PairExpired, r);
    hide AskedFor;
  }

  lemma LockGoesOn(phase: Phases, lock: Option<Socket>, w: Socket, p: Phase)
    requires LockFits(phase, lock) && !p.Rejecting? && (w in phase ==> !phase[w].Rejecting?)
    ensures LockFits(phase[w := p], lock)
  {
  }

  // A handler that is in no table, nor enters one.
  lemma QuietMove(s: State, s': State, w: Socket, p: Phase)
    requires Inv(s) && s'.phase == s.phase[w := p]
    requires s'.tables == s.tables && s'.lock == s.lock && s'.asked == s.asked
    requires !Registered(p) && !p.Rejecting?
    requires if w in s.phase then
               !Registered(s.phase[w]) && !s.phase[w].Rejecting? && PairingGoesOn(s.phase[w], p)
             else p.AwaitAuth?
    ensures Inv(s')
  {
    hide RegistryFits, RequestsFit, LockFits;
    RegistryQuiet(s.phase, s.tables.registry, s.tables.roles, w, p);
    SlotGoesOn(s.phase, s.tables.slot, w, p);
    RequestsGoOn(s.phase, s.tables.pending, s.asked, w, p);
    LockGoesOn(s.phase, s.lock, w, p);
  }

  // A registered handler that goes on under the same id and role; the slot and
  // the pending requests may change beside it.
  lemma RegisteredMove(s: State, s': State, w: Socket, p: Phase)
    requires Inv(s) && w in s.phase && s'.phase == s.phase[w := p]
    requires s'.tables.registry == s.tables.registry && s'.tables.roles == s.tables.roles
    requires s'.lock == s.lock && s'.asked == s.asked
    requires s'.tables.pending == s.tables.pending || exists rid :: s'.tables.pending == s.tables.pending - {rid}
    requires Registered(s.phase[w]) && Registered(p)
    requires p.id == s.phase[w].id && RoleOf(p) == RoleOf(s.phase[w])
    requires || (s'.tables.slot == s.tables.slot && (MayHoldSlot(s.phase[w]) ==> MayHoldSlot(p)))
             || (s'.tables.slot == Some(w) && MayHoldSlot(p))
             || s'.tables == ClearDesktop(s.tables, w)
    ensures Inv(s')
  {
    hide RegistryFits, RequestsFit, LockFits;
    RegistryGoesOn(s.phase, s.tables.registry, s.tables.roles, w, p);
    RequestsGoOn(s.phase, s.tables.pending, s.asked, w, p);
    if s'.tables.pending != s.tables.pending {
      var rid :| s'.tables.pending == s.tables.pending - {rid};
      RequestsDrop(s'.phase, s.tables.pending, s.asked, rid);
    }
    LockGoesOn(s.phase, s.lock, w, p);
  }

  // A registered handler that goes on, with no table changed.
  lemma PhaseMove(s: State, s': State, w: Socket, p: Phase)
    requires Inv(s) && w in s.phase && s'.phase == s.phase[w := p]
    requires s'.tables == s.tables && s'.lock == s.lock && s'.asked == s.asked
    requires Registered(s.phase[w]) && Registered(p)
    requires p.id == s.phase[w].id && RoleOf(p) == RoleOf(s.phase[w])
    requires MayHoldSlot(s.phase[w]) ==> MayHoldSlot(p)
    ensures Inv(s')
  {
    hide Inv;
    RegisteredMove(s, s', w, p);
  }

  // ----- every step keeps the invariant

  // The steps of handlers that are in no table and enter none.
  lemma ConnectStep(s: State, w: Socket)
    requires Inv(s) && w !in s.phase
    ensures Inv(Goto(s, w, AwaitAuth))
  {
    hide Inv;
    QuietMove(s, Goto(s, w, AwaitAuth), w, AwaitAuth);
  }

  lemma CloseStep(s: State, w: Socket)
    requires Inv(s) && w in s.phase
    requires s.phase[w].AwaitAuth? || s.phase[w].PairStart? || s.phase[w].PairForward? || s.phase[w].PairExpired?
    ensures Inv(CloseAndEnd(s, w))
  {
    hide Inv;
    QuietMove(s, CloseAndEnd(s, w), w, Done);
  }

  lemma AuthPassedStep(s: State, w: Socket, id: DeviceId, role: Role)
    requires Inv(s) && w in s.phase && s.phase[w].AwaitAuth?
    ensures Inv(AuthPassed(s, w, id, role))
  {
    hide Inv;
    QuietMove(s, AuthPassed(s, w, id, role), w, if w in s.closed then Done else Authed(id, role));
  }

  lemma BeginStep(s: State, w: Socket)
    requires Inv(s) && w in s.phase && s.phase[w].AwaitAuth?
    ensures Inv(Goto(s, w, PairStart))
  {
    hide Inv;
    QuietMove(s, Goto(s, w, PairStart), w, PairStart);
  }

  lemma ReadSlotStep(s: State, w: Socket)
    requires Inv(s) && w in s.phase && s.phase[w].PairStart?
    ensures Inv(SlotRead(s, w))
  {
    hide Inv;
    if s.tables.slot.Some? {
      QuietMove(s, SlotRead(s, w), w, PairStore(s.tables.slot.value));
    } else {
      CloseStep(s, w);
    }
  }

  lemma ForwardStep(s: State, w: Socket)
    requires Inv(s) && w in s.phase && s.phase[w].PairForward?
    ensures Inv(RequestForwarded(s, w))
  {
    hide Inv;
    if s.phase[w].desktop in s.closed {
      CloseStep(s, w);
    } else {
      QuietMove(s, RequestForwarded(s, w), w, PairAck(s.phase[w].rid));
    }
  }

  lemma AcknowledgeStep(s: State, w: Socket)
    requires Inv(s) && w in s.phase && s.phase[w].PairAck?
    ensures Inv(RequestAcknowledged(s, w))
  {
    hide Inv;
    QuietMove(s, RequestAcknowledged(s, w), w, if w in s.closed then Done else PairWait(s.phase[w].rid));
  }

  lemma GoneStep(s: State, w: Socket)
    requires Inv(s) && w in s.phase && s.phase[w].PairWait?
    ensures Inv(Goto(s, w, Done))
  {
    hide Inv;
    QuietMove(s, Goto(s, w, Done), w, Done);
  }

  lemma AnnounceStep(s: State, w: Socket)
    requires Inv(s) && w in s.phase && s.phase[w].Leaving?
    ensures Inv(Goto(Notify(s), w, Done))
  {
    hide Inv;
    QuietMove(s, Goto(Notify(s), w, Done), w, Done);
  }

  lemma StoreStep(s: State, w: Socket, rid: RequestId)
    requires Inv(s) && w in s.phase && s.phase[w].PairStore? && rid !in s.asked
    ensures Inv(RequestStored(s, w, rid))
  {
    var p := PairForward(rid, s.phase[w].desktop);
    hide RegistryFits, RequestsFit, LockFits;
    RegistryQuiet(s.phase, s.tables.registry, s.tables.roles, w, p);
    SlotGoesOn(s.phase, s.tables.slot, w, p);
    RequestsAdd(s.phase, s.tables.pending, s.asked, w, rid, s.phase[w].desktop);
    LockGoesOn(s.phase, s.lock, w, p);
  }

  lemma TimeoutStep(s: State, w: Socket)
    requires Inv(s) && w in s.phase && s.phase[w].PairWait?
    ensures Inv(TimedOut(s, w))
  {
    var rid := s.phase[w].rid;
    hide RegistryFits, RequestsFit, LockFits;
    RegistryQuiet(s.phase, s.tables.registry, s.tables.roles, w, PairExpired);
    SlotGoesOn(s.phase, s.tables.slot, w, PairExpired);
    RequestsExpire(s.phase, s.tables.pending, s.asked, w, rid);
    LockGoesOn(s.phase, s.lock, w, PairExpired);
    assert rid !in s.tables.pending ==> s.tables.pending - {rid} == s.tables.pending;
  }

  lemma AcceptStep(s: State, w: Socket)
    requires Inv(s) && w in s.phase && s.phase[w].Authed? && s.phase[w].id !in s.tables.registry
    ensures Inv(Registering(s, w))
  {
    var Authed(id, role) := s.phase[w];
    var p := Joined(id, role);
    hide RegistryFits, RequestsFit, LockFits, SlotFits;
    RegistryAdds(s.phase, s.tables.registry, s.tables.roles, w, id, role);
    LockGoesOn(s.phase, s.lock, w, p);
    SlotGoesOn(s.phase, s.tables.slot, w, p);
    RequestsGoOn(s.phase, s.tables.pending, s.asked, w, p);
  }

  lemma RejectStep(s: State, w: Socket)
    requires Inv(s) && w in s.phase && s.phase[w].Authed? && s.phase[w].id in s.tables.registry && s.lock.None?
    ensures Inv(Registering(s, w))
  {
    assert s.tables.registry[s.phase[w].id] != w;
    hide RegistryFits, RequestsFit, SlotFits;
    RegistryQuiet(s.phase, s.tables.registry, s.tables.roles, w, Rejecting);
    SlotGoesOn(s.phase, s.tables.slot, w, Rejecting);
    RequestsGoOn(s.phase, s.tables.pending, s.asked, w, Rejecting);
  }

  lemma FinishRejectStep(s: State, w: Socket)
    requires Inv(s) && w in s.phase && s.phase[w].Rejecting?
    ensures Inv(Goto(s.(lock := None), w, Done))
  {
    hide RegistryFits, RequestsFit;
    RegistryQuiet(s.phase, s.tables.registry, s.tables.roles, w, Done);
    SlotGoesOn(s.phase, s.tables.slot, w, Done);
    RequestsGoOn(s.phase, s.tables.pending, s.asked, w, Done);
  }

  lemma EnterStep(s: State, w: Socket)
    requires Inv(s) && w in s.phase && s.phase[w].Joined?
    ensures Inv(Entered(s, w))
  {
    hide Inv;
    RegisteredMove(s, Entered(s, w), w, Open(s.phase[w].id, s.phase[w].role));
  }

  lemma HearStep(s: State, w: Socket, frame: Frame)
    requires Inv(s) && w in s.phase && s.phase[w].Open?
    ensures Inv(Hear(s, w, frame))
  {
    hide Inv, EndsReceiver;
    var s' := Hear(s, w, frame);
    if EndsReceiver(s.phase[w].role, frame) {
      RegisteredMove(s, s', w, s'.phase[w]);
    } else if frame.Object? && s.phase[w].role.Desktop? && frame.answer.Some? {
      ClaimStep(s, w, frame.answer.value);
    } else if frame.Object? {
      RegisteredMove(s, s', w, s'.phase[w]);
    }
  }

  lemma ClaimStep(s: State, w: Socket, answer: Answer)
    requires Inv(s) && w in s.phase && s.phase[w].Open? && s.phase[w].role.Desktop?
    ensures Inv(Claim(s, w, answer))
  {
    hide Inv;
    var s' := Claim(s, w, answer);
    if s' != s {
      assert s'.tables.pending == s.tables.pending - {answer.rid.value};
      RegisteredMove(s, s', w, s'.phase[w]);
    }
  }

  lemma ClosingFits(id: DeviceId, role: Role)
    ensures var p := Closing(id, role);
            Registered(p) && p.id == id && RoleOf(p) == role && (role.Desktop? ==> MayHoldSlot(p))
  {
  }

  lemma AnswerStep(s: State, w: Socket)
    requires Inv(s) && w in s.phase && s.phase[w].Answering?
    ensures Inv(AnswerSent(s, w))
  {
    hide Inv;
    var id := s.phase[w].id;
    RegisteredMove(s, AnswerSent(s, w), w, if s.phase[w].to in s.closed then ClosingSlot(id) else Open(id, Desktop));
  }

  lemma RouteStep(s: State, w: Socket, to: Recipients)
    requires Inv(s) && w in s.phase && s.phase[w].Relaying?
    ensures Inv(Route(s, w, to))
  {
    var Relaying(id, role, index, body, target) := s.phase[w];
    ClosingFits(id, role);
    hide Inv, Closing, Chosen;
    var chosen := Chosen(s.tables, target, to);
    PhaseMove(s, Route(s, w, to), w,
              if chosen.Some? then Sending(id, role, index, body, chosen.value)
              else if target.Unhashable? then Closing(id, role) else Open(id, role));
  }

  lemma DeliverStep(s: State, w: Socket)
    requires Inv(s) && w in s.phase && s.phase[w].Sending?
    ensures Inv(Deliver(s, w))
  {
    var Sending(id, role, index, body, rest) := s.phase[w];
    hide Inv, Tried;
    PhaseMove(s, Deliver(s, w), w, if rest == [] then Open(id, role) else Sending(id, role, index, body, rest[1..]));
  }

  lemma EndOfStreamStep(s: State, w: Socket)
    requires Inv(s) && w in s.phase && s.phase[w].Open?
    ensures Inv(Goto(s, w, Closing(s.phase[w].id, s.phase[w].role)))
  {
    hide Inv;
    var p := Closing(s.phase[w].id, s.phase[w].role);
    RegisteredMove(s, Goto(s, w, p), w, p);
  }

  lemma LeaveSlotStep(s: State, w: Socket)
    requires Inv(s) && w in s.phase && s.phase[w].ClosingSlot?
    ensures Inv(Goto(s.(tables := ClearDesktop(s.tables, w)), w, Unregistering(s.phase[w].id, Desktop)))
  {
    hide Inv;
    var p := Unregistering(s.phase[w].id, Desktop);
    RegisteredMove(s, Goto(s.(tables := ClearDesktop(s.tables, w)), w, p), w, p);
  }

  lemma LeaveStep(s: State, w: Socket)
    requires Inv(s) && w in s.phase && s.phase[w].Unregistering?
    ensures Inv(RegistryLeft(s, w))
  {
    var p := RegistryLeft(s, w).phase[w];
    assert s.tables.registry[s.phase[w].id] == w;
    hide RegistryFits, RequestsFit, LockFits;
    RegistryDrops(s.phase, s.tables.registry, s.tables.roles, w, p);
    SlotGoesOn(s.phase, s.tables.slot, w, p);
    RequestsGoOn(s.phase, s.tables.pending, s.asked, w, p);
    LockGoesOn(s.phase, s.lock, w, p);
  }

  lemma StepKeepsInv(s: State, step: Step)
    requires Inv(s) && Enabled(s, step)
    ensures Inv(Next(s, step))
  {
    hide Inv, Goto, AuthPassed, CloseAndEnd, SlotRead, RequestStored, RequestForwarded, RequestAcknowledged, TimedOut,
         Registering, Entered, Hear, AnswerSent, Route, Deliver, RegistryLeft, Notify, IsSnapshot, ClearDesktop;
    match step
    case Connect(w) => ConnectStep(s, w);
    case Hangup(w) => HangupStep(s, w);
    case AuthFails(w) => CloseStep(s, w);
    case AuthPasses(w, id, role) => AuthPassedStep(s, w, id, role);
    case BeginPairing(w) => BeginStep(s, w);
    case ReadSlot(w) => ReadSlotStep(s, w);
    case Store(w, rid) => StoreStep(s, w, rid);
    case Forward(w) => ForwardStep(s, w);
    case Acknowledge(w) => AcknowledgeStep(s, w);
    case ClientGone(w) => GoneStep(s, w);
    case Timeout(w) => TimeoutStep(s, w);
    case CloseExpired(w) => CloseStep(s, w);
    case TryRegister(w) => if s.phase[w].id in s.tables.registry { RejectStep(s, w); } else { AcceptStep(s, w); }
    case FinishReject(w) => FinishRejectStep(s, w);
    case Enter(w) => EnterStep(s, w);
    case Receive(w, frame) => HearStep(s, w, frame);
    case SendAnswer(w) => AnswerStep(s, w);
    case TakeSnapshot(w, to) => RouteStep(s, w, to);
    case SendNext(w) => DeliverStep(s, w);
    case EndOfStream(w) => EndOfStreamStep(s, w);
    case LeaveSlot(w) => LeaveSlotStep(s, w);
    case LeaveRegistry(w) => LeaveStep(s, w);
    case Announce(w) => AnnounceStep(s, w);
  }

  lemma HangupStep(s: State, w: Socket)
    requires Inv(s)
    ensures Inv(s.(closed := s.closed + {w}))
  {
    hide RegistryFits, SlotFits, RequestsFit, LockFits;
  }

  // Every reachable state satisfies the invariant.
  lemma {:induction false} ReachableInv(steps: seq<Step>)
    requires Runs(steps)
    ensures Inv(After(steps))
  {
    if steps != [] {
      ReachableInv(steps[..|steps| - 1]);
      StepKeepsInv(After(steps[..|steps| - 1]), steps[|steps| - 1]);
    }
  }

  // ----- what a reader gets from the invariant

  // No two ids ever share a socket.
  lemma SocketsUnshared(steps: seq<Step>, a: DeviceId, b: DeviceId)
    requires Runs(steps)
    ensures var registry := After(steps).tables.registry;
            a in registry && b in registry && registry[a] == registry[b] ==> a == b
  {
    ReachableInv(steps);
  }

  // The desktop slot is always empty or holds a registered desktop.
  lemma SlotIsRegisteredDesktop(steps: seq<Step>)
    requires Runs(steps)
    ensures var t := After(steps).tables;
            t.slot.Some? ==>
              exists id :: id in t.registry && t.registry[id] == t.slot.value && id in t.roles && t.roles[id] == Desktop
  {
    ReachableInv(steps);
    var s := After(steps);
    if s.tables.slot.Some? {
      var p := s.phase[s.tables.slot.value];
      assert p.id in s.tables.registry;
    }
  }

  // No socket that asked for pairing is ever in the registry.
  lemma PairingSocketUnregistered(steps: seq<Step>, rid: RequestId, id: DeviceId)
    requires Runs(steps)
    ensures var s := After(steps);
            rid in s.asked && id in s.tables.registry ==> s.tables.registry[id] != s.asked[rid]
  {
    ReachableInv(steps);
  }

  // One step: an id stays with its socket unless that socket's own handler
  // unregisters it.
  lemma IncumbentKept(s: State, step: Step, id: DeviceId)
    requires Inv(s) && Enabled(s, step) && id in s.tables.registry
    ensures var s' := Next(s, step);
            || (id in s'.tables.registry && s'.tables.registry[id] == s.tables.registry[id])
            || (step.LeaveRegistry? && step.w == s.tables.registry[id] && s.phase[step.w].id == id)
  {
    hide Inv, IsSnapshot;
    if !step.TryRegister? && !step.LeaveRegistry? {
      hide Next;
      RegistryUntouched(s, step);
    }
  }

  // Over runs: however many duplicates are rejected and other sockets
  // disconnect, an id stays with its socket for as long as that socket's own
  // handler does not unregister it.
  lemma {:induction false} IncumbentStays(before: seq<Step>, later: seq<Step>, id: DeviceId)
    requires Runs(before + later)
    ensures Runs(before)
    ensures var registry := After(before).tables.registry;
            id in registry && LeaveRegistry(registry[id]) !in later ==>
              id in After(before + later).tables.registry && After(before + later).tables.registry[id] == registry[id]
    decreases |later|
  {
    if later == [] {
      assert before + later == before;
    } else {
      var last := |later| - 1;
      var shorter := before + later[..last];
      assert (before + later)[..|before + later| - 1] == shorter;
      assert (before + later)[|before + later| - 1] == later[last];
      IncumbentStays(before, later[..last], id);
      ReachableInv(shorter);
      assert later[last] in later;
      assert forall st :: st in later[..last] ==> st in later;
      hide Inv, Enabled, Next;
      if id in After(shorter).tables.registry {
        IncumbentKept(After(shorter), later[last], id);
      }
    }
  }
}
