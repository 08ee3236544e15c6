// The gateway's books by the history of a run alone: who each handler is, who
// holds each device id, what each id has said and where each message went.
module GatewayHistory {
  import Labels = RelayLabels
  import opened Wrappers
  import opened Gateway
  import opened GatewayFrames
  import opened GatewayInvariant
  import opened GatewayDepartures
  import opened GatewayDelivery

  // ----- who a handler is

  datatype Who = Who(id: DeviceId, role: Role)

  // What the handler has authenticated as.
  function Identity(steps: seq<Step>, w: Socket): Option<Who> {
    if steps == [] then None
    else
      var before, step := steps[..|steps| - 1], steps[|steps| - 1];
      if step.AuthPasses? && step.w == w then Some(Who(step.id, step.role)) else Identity(before, w)
  }

  predicate HasRole(p: Phase) { p.Authed? || Registered(p) }

  function WhoIs(p: Phase): Who
    requires HasRole(p)
  {
    Who(p.id, if p.Authed? then p.role else RoleOf(p))
  }

  predicate Identified(p: Phase, who: Option<Who>) {
    && (HasRole(p) ==> who == Some(WhoIs(p)))
    && (p.Leaving? ==> who.Some? && who.value.id == p.id)
  }

  // A handler in the second phase is who it was in the first.
  predicate SameWho(p: Phase, p': Phase) {
    && (HasRole(p') ==> HasRole(p) && WhoIs(p') == WhoIs(p))
    && (p'.Leaving? ==> (p.Leaving? || Registered(p)) && p'.id == p.id)
  }

  // A step moves its own handler only, whether started or not.
  lemma NothingElseMoves(s: State, step: Step, v: Socket)
    requires Enabled(s, step) && step.w != v
    ensures v in Next(s, step).phase <==> v in s.phase
    ensures PhaseOf(Next(s, step), v) == PhaseOf(s, v)
  {
    if v in s.phase {
      hide Enabled, Next;
      OthersStay(s, step, v);
    } else if IsAside(step) {
      hide Enabled, Next, IsAside, SameBooks;
      AsideStep(s, step);
    } else {
      hide Enabled, Next;
      BusyMoves(s, step);
    }
  }

  lemma BusyMoves(s: State, step: Step)
    requires Enabled(s, step) && !IsAside(step)
    ensures Next(s, step).phase == s.phase[step.w := PhaseOf(Next(s, step), step.w)]
  {
    if step.Store? || step.Timeout? {
      hide Enabled, Next;
      PairingMoves(s, step);
    } else {
      hide IsSnapshot, Hear, Route, Deliver, AnswerSent;
      match step
      case Receive(w, frame) => HearMoves(s, w, frame);
      case SendAnswer(w) => AnswerMoves(s, w);
      case TakeSnapshot(w, to) => RouteMoves(s, w, to);
      case SendNext(w) => DeliverMoves(s, w);
    }
  }

  lemma ClosingIsWho(id: DeviceId, role: Role)
    ensures var p := Closing(id, role);
            Registered(p) && WhoIs(p) == Who(id, role) && !p.Relaying?
  {
  }

  lemma HearKeepsWho(s: State, w: Socket, frame: Frame)
    requires w in s.phase && s.phase[w].Open?
    ensures SameWho(s.phase[w], PhaseOf(Hear(s, w, frame), w))
  {
    ClosingIsWho(s.phase[w].id, s.phase[w].role);
    hide Closing, EndsReceiver, Said;
  }

  lemma RouteKeepsWho(s: State, w: Socket, to: Recipients)
    requires w in s.phase && s.phase[w].Relaying?
    ensures SameWho(s.phase[w], PhaseOf(Route(s, w, to), w)) && !PhaseOf(Route(s, w, to), w).Relaying?
  {
    ClosingIsWho(s.phase[w].id, s.phase[w].role);
    hide Closing, Chosen;
  }

  lemma DeliverKeepsWho(s: State, w: Socket)
    requires w in s.phase && s.phase[w].Sending?
    ensures SameWho(s.phase[w], PhaseOf(Deliver(s, w), w)) && !PhaseOf(Deliver(s, w), w).Relaying?
  {
    hide Tried;
  }

  lemma RegisteringKeepsWho(s: State, w: Socket)
    requires w in s.phase && s.phase[w].Authed?
    ensures SameWho(s.phase[w], PhaseOf(Registering(s, w), w))
  {
    hide Register;
  }

  lemma EnteredKeepsWho(s: State, w: Socket)
    requires w in s.phase && s.phase[w].Joined?
    ensures SameWho(s.phase[w], PhaseOf(Entered(s, w), w))
  {
    hide Notices, SetDesktop;
  }

  lemma LeavingKeepsWho(s: State, w: Socket)
    requires w in s.phase && s.phase[w].Unregistering?
    ensures SameWho(s.phase[w], PhaseOf(RegistryLeft(s, w), w))
  {
    hide Unregister;
  }

  lemma AnsweringKeepsWho(s: State, w: Socket)
    requires w in s.phase && s.phase[w].Answering?
    ensures SameWho(s.phase[w], PhaseOf(AnswerSent(s, w), w)) && !PhaseOf(AnswerSent(s, w), w).Relaying?
  {
  }

  predicate Nameless(p: Phase) { !HasRole(p) && !p.Leaving? }

  lemma SlotReadIsNameless(s: State, w: Socket)
    ensures Nameless(PhaseOf(SlotRead(s, w), w))
  {
  }

  lemma ForwardIsNameless(s: State, w: Socket)
    requires w in s.phase && s.phase[w].PairForward?
    ensures Nameless(PhaseOf(RequestForwarded(s, w), w))
  {
  }

  lemma AcknowledgeIsNameless(s: State, w: Socket)
    requires w in s.phase && s.phase[w].PairAck?
    ensures Nameless(PhaseOf(RequestAcknowledged(s, w), w))
  {
  }

  lemma RequestIsNameless(s: State, w: Socket, rid: RequestId)
    requires w in s.phase
    ensures s.phase[w].PairStore? ==> Nameless(PhaseOf(RequestStored(s, w, rid), w))
    ensures s.phase[w].PairWait? ==> Nameless(PhaseOf(TimedOut(s, w), w))
  {
    hide PopRequest, StoreRequest;
  }

  // Only authentication gives a handler an id and a role.
  lemma WhoStep(s: State, step: Step)
    requires Enabled(s, step) && !step.AuthPasses?
    ensures SameWho(PhaseOf(s, step.w), PhaseOf(Next(s, step), step.w))
  {
    if step.ReadSlot? || step.Store? || step.Forward? || step.Acknowledge? || step.Timeout? {
      hide SlotRead, RequestStored, RequestForwarded, RequestAcknowledged, TimedOut, IsSnapshot;
      match step
      case ReadSlot(w) => SlotReadIsNameless(s, w);
      case Store(w, rid) => RequestIsNameless(s, w, rid);
      case Forward(w) => ForwardIsNameless(s, w);
      case Acknowledge(w) => AcknowledgeIsNameless(s, w);
      case Timeout(w) => RequestIsNameless(s, w, "");
    } else {
      hide IsSnapshot, SameWho;
      RegisteredWhoStep(s, step);
    }
  }

  lemma RegisteredWhoStep(s: State, step: Step)
    requires Enabled(s, step) && !step.AuthPasses? && !step.ReadSlot? && !step.Store? && !step.Forward?
    requires !step.Acknowledge? && !step.Timeout?
    ensures SameWho(PhaseOf(s, step.w), PhaseOf(Next(s, step), step.w))
  {
    if step.EndOfStream? {
      ClosingIsWho(s.phase[step.w].id, s.phase[step.w].role);
    }
    hide IsSnapshot, Hear, Route, Deliver, AnswerSent, Registering, Entered, RegistryLeft, Closing, Notify,
         ClearDesktop;
    match step
    case Receive(w, frame) => HearKeepsWho(s, w, frame);
    case TakeSnapshot(w, to) => RouteKeepsWho(s, w, to);
    case SendNext(w) => DeliverKeepsWho(s, w);
    case SendAnswer(w) => AnsweringKeepsWho(s, w);
    case TryRegister(w) => RegisteringKeepsWho(s, w);
    case Enter(w) => EnteredKeepsWho(s, w);
    case LeaveRegistry(w) => LeavingKeepsWho(s, w);
    case _ =>
  }

  lemma AuthGivesWho(s: State, w: Socket, id: DeviceId, role: Role)
    ensures Identified(PhaseOf(AuthPassed(s, w, id, role), w), Some(Who(id, role)))
  {
  }

  // In every run each handler goes by the id and the role it authenticated as.
  lemma {:induction false} HandlersAreWhoTheySaid(steps: seq<Step>, w: Socket)
    requires Runs(steps)
    ensures Identified(PhaseOf(After(steps), w), Identity(steps, w))
  {
    if steps != [] {
      var before, step := steps[..|steps| - 1], steps[|steps| - 1];
      HandlersAreWhoTheySaid(before, w);
      if step.w != w {
        hide Enabled, Next;
        NothingElseMoves(After(before), step, w);
      } else if step.AuthPasses? {
        AuthGivesWho(After(before), w, step.id, step.role);
        hide AuthPassed, Enabled;
      } else {
        hide Enabled, Next;
        WhoStep(After(before), step);
      }
    }
  }

  // ----- what an id has said

  datatype Message = Message(target: Target, body: Body)

  // A frame to be passed on: an object, no pairing response from the desktop, and
  // one whose labels for the log can be computed.
  predicate IsRelayable(role: Role, frame: Frame) {
    && frame.Object? && !(role.Desktop? && frame.answer.Some?)
    && !Labels.LabelsRaise(frame.payload, role.Desktop?, frame.target.Unhashable?)
  }

  // The step brings such a frame to a handler that has authenticated.
  predicate Brings(before: seq<Step>, step: Step) {
    && step.Receive? && Identity(before, step.w).Some?
    && IsRelayable(Identity(before, step.w).value.role, step.frame)
  }

  // The messages that handlers of this id have received, in order.
  function Messages(steps: seq<Step>, id: DeviceId): seq<Message> {
    if steps == [] then []
    else
      var before, step := steps[..|steps| - 1], steps[|steps| - 1];
      if Brings(before, step) && Identity(before, step.w).value.id == id
      then Messages(before, id) + [Message(step.frame.target, step.frame.body)]
      else Messages(before, id)
  }

  // The message that a handler has received and not yet found recipients for.
  function Held(steps: seq<Step>, w: Socket): Option<Message> {
    if steps == [] then None
    else
      var before, step := steps[..|steps| - 1], steps[|steps| - 1];
      if step.w != w then Held(before, w)
      else if Brings(before, step) then Some(Message(step.frame.target, step.frame.body))
      else if step.TakeSnapshot? then None
      else Held(before, w)
  }

  function Bodies(messages: seq<Message>): seq<Body> {
    if messages == [] then []
    else Bodies(messages[..|messages| - 1]) + [messages[|messages| - 1].body]
  }

  lemma {:induction false} BodiesAt(messages: seq<Message>)
    ensures |Bodies(messages)| == |messages|
    ensures forall k :: 0 <= k < |messages| ==> Bodies(messages)[k] == messages[k].body
  {
    if messages != [] {
      BodiesAt(messages[..|messages| - 1]);
    }
  }

  lemma HearSays(s: State, w: Socket, frame: Frame, id: DeviceId)
    requires w in s.phase && s.phase[w].Open?
    ensures Said(Hear(s, w, frame).heard, id) ==
            if IsRelayable(s.phase[w].role, frame) && s.phase[w].id == id then Said(s.heard, id) + [frame.body]
            else Said(s.heard, id)
  {
    hide Closing;
  }

  lemma PairingSaysNothing(s: State, step: Step)
    requires Enabled(s, step) && (step.Store? || step.Timeout? || step.SendAnswer?)
    ensures Next(s, step).heard == s.heard
  {
    hide PopRequest, StoreRequest;
  }

  lemma RouteSaysNothing(s: State, w: Socket, to: Recipients)
    requires w in s.phase && s.phase[w].Relaying?
    ensures Route(s, w, to).heard == s.heard
  {
    hide Closing, Chosen;
  }

  lemma DeliverSaysNothing(s: State, w: Socket)
    requires w in s.phase && s.phase[w].Sending?
    ensures Deliver(s, w).heard == s.heard
  {
    hide Tried;
  }

  lemma SaidStep(s: State, step: Step, id: DeviceId)
    requires Enabled(s, step)
    ensures Said(Next(s, step).heard, id) ==
            if step.Receive? && IsRelayable(s.phase[step.w].role, step.frame) && s.phase[step.w].id == id
            then Said(s.heard, id) + [step.frame.body] else Said(s.heard, id)
  {
    if step.Receive? {
      HearSays(s, step.w, step.frame, id);
      hide Hear, Said, IsRelayable;
    } else if IsAside(step) {
      hide Enabled, Next, IsAside, OnlyMoves, Said;
      AsideStep(s, step);
    } else {
      hide IsSnapshot, Route, Deliver, Said, RequestStored, TimedOut, AnswerSent;
      match step
      case TakeSnapshot(w, to) => RouteSaysNothing(s, w, to);
      case SendNext(w) => DeliverSaysNothing(s, w);
      case _ => PairingSaysNothing(s, step);
    }
  }

  // A handler that receives goes by what it authenticated as.
  lemma ReceiverIsWho(before: seq<Step>, step: Step)
    requires Runs(before) && Enabled(After(before), step) && step.Receive?
    ensures var p := After(before).phase[step.w];
            Identity(before, step.w) == Some(Who(p.id, p.role))
  {
    HandlersAreWhoTheySaid(before, step.w);
  }

  // In every run an id has said exactly what its handlers received to be passed on.
  lemma {:induction false} HeardIsReceived(steps: seq<Step>, id: DeviceId)
    requires Runs(steps)
    ensures Said(After(steps).heard, id) == Bodies(Messages(steps, id))
  {
    if steps != [] {
      var before, step := steps[..|steps| - 1], steps[|steps| - 1];
      HeardIsReceived(before, id);
      SaidStep(After(before), step, id);
      if step.Receive? {
        ReceiverIsWho(before, step);
        hide Next, IsRelayable, Said;
      }
    }
  }

  // ----- the message a handler holds

  function HeldIn(p: Phase): Option<Message> {
    if p.Relaying? then Some(Message(p.target, p.body)) else None
  }

  lemma HearHolds(s: State, w: Socket, frame: Frame)
    requires w in s.phase && s.phase[w].Open?
    ensures HeldIn(PhaseOf(Hear(s, w, frame), w)) ==
            if IsRelayable(s.phase[w].role, frame) then Some(Message(frame.target, frame.body)) else None
  {
    ClosingIsWho(s.phase[w].id, s.phase[w].role);
    hide Closing, Said, Labels.LabelsRaise;
  }

  lemma BusyHolds(s: State, step: Step)
    requires Enabled(s, step) && !IsAside(step) && !step.Receive?
    ensures HeldIn(PhaseOf(Next(s, step), step.w)) == None
    ensures HeldIn(PhaseOf(s, step.w)).Some? ==> step.TakeSnapshot?
  {
    hide IsSnapshot, Route, Deliver, AnswerSent, RequestStored, TimedOut;
    match step
    case Store(w, rid) => RequestIsNameless(s, w, rid);
    case Timeout(w) => RequestIsNameless(s, w, "");
    case SendAnswer(w) => AnsweringKeepsWho(s, w);
    case TakeSnapshot(w, to) => RouteKeepsWho(s, w, to);
    case SendNext(w) => DeliverKeepsWho(s, w);
  }

  lemma HeldStep(s: State, step: Step)
    requires Enabled(s, step)
    ensures HeldIn(PhaseOf(Next(s, step), step.w)) ==
            if step.Receive? && IsRelayable(s.phase[step.w].role, step.frame)
            then Some(Message(step.frame.target, step.frame.body))
            else if step.TakeSnapshot? then None
            else HeldIn(PhaseOf(s, step.w))
  {
    if step.Receive? {
      HearHolds(s, step.w, step.frame);
      hide Hear, IsRelayable;
    } else if IsAside(step) {
      hide Enabled, Next, IsAside, SameBooks;
      AsideStep(s, step);
    } else {
      hide Enabled, Next;
      BusyHolds(s, step);
    }
  }

  // In every run a handler is about to route exactly the message it holds.
  lemma {:induction false} RoutedIsHeld(steps: seq<Step>, w: Socket)
    requires Runs(steps)
    ensures HeldIn(PhaseOf(After(steps), w)) == Held(steps, w)
  {
    if steps != [] {
      var before, step := steps[..|steps| - 1], steps[|steps| - 1];
      RoutedIsHeld(before, w);
      if step.w != w {
        hide Enabled, Next, HeldIn;
        NothingElseMoves(After(before), step, w);
      } else {
        HeldStep(After(before), step);
        if step.Receive? {
          ReceiverIsWho(before, step);
        }
        hide Next, IsRelayable, HeldIn;
      }
    }
  }

  // A message is held until its recipients are looked up, whatever else happens.
  lemma {:induction false} HeldOn(steps: seq<Step>, mid: seq<Step>, w: Socket)
    requires forall st :: st in mid && st.w == w ==> !st.Receive? && !st.TakeSnapshot?
    ensures Held(steps + mid, w) == Held(steps, w)
    decreases |mid|
  {
    if mid == [] {
      assert steps + mid == steps;
    } else {
      var shorter := mid[..|mid| - 1];
      assert (steps + mid)[..|steps + mid| - 1] == steps + shorter;
      assert mid[|mid| - 1] in mid;
      HeldOn(steps, shorter, w);
      hide IsRelayable;
    }
  }

  // ----- who holds an id

  // The first handler to try for the id while it is free has it until it
  // unregisters.
  function Holder(steps: seq<Step>, id: DeviceId): Option<Socket> {
    if steps == [] then None
    else
      var before, step := steps[..|steps| - 1], steps[|steps| - 1];
      if step.TryRegister? && Holder(before, id).None? && Identity(before, step.w).Some?
         && Identity(before, step.w).value.id == id then Some(step.w)
      else if step.LeaveRegistry? && Holder(before, id) == Some(step.w) then None
      else Holder(before, id)
  }

  function Lookup(registry: map<DeviceId, Socket>, id: DeviceId): Option<Socket> {
    if id in registry then Some(registry[id]) else None
  }

  lemma RegisteringHolds(s: State, w: Socket, id: DeviceId)
    requires w in s.phase && s.phase[w].Authed?
    ensures Lookup(Registering(s, w).tables.registry, id) ==
            if s.phase[w].id == id && id !in s.tables.registry then Some(w) else Lookup(s.tables.registry, id)
  {
  }

  lemma LeavingHolds(s: State, w: Socket, id: DeviceId)
    requires Inv(s) && w in s.phase && s.phase[w].Unregistering?
    ensures Lookup(RegistryLeft(s, w).tables.registry, id) ==
            if Lookup(s.tables.registry, id) == Some(w) then None else Lookup(s.tables.registry, id)
  {
    assert s.phase[w].id in s.tables.registry && s.tables.registry[s.phase[w].id] == w;
    assert id in s.tables.registry && s.tables.registry[id] == w ==> s.phase[w].id == id;
    hide Inv;
  }

  // In every run the registry says who holds each id.
  lemma {:induction false} RegistryIsHolders(steps: seq<Step>, id: DeviceId)
    requires Runs(steps)
    ensures Lookup(After(steps).tables.registry, id) == Holder(steps, id)
  {
    if steps != [] {
      var before, step := steps[..|steps| - 1], steps[|steps| - 1];
      RegistryIsHolders(before, id);
      if step.TryRegister? {
        RegisteringHolds(After(before), step.w, id);
        HandlersAreWhoTheySaid(before, step.w);
        hide Registering;
      } else if step.LeaveRegistry? {
        ReachableInv(before);
        LeavingHolds(After(before), step.w, id);
        hide RegistryLeft, Inv;
      } else {
        hide Enabled, Next;
        RegistryUntouched(After(before), step);
      }
    }
  }

  // ----- who is in the desktop slot

  // The desktop that entered last, unless it has left since: one that left
  // earlier takes nothing from it.
  function LastEntered(steps: seq<Step>): Option<Socket> {
    if steps == [] then None
    else
      var before, step := steps[..|steps| - 1], steps[|steps| - 1];
      if step.Enter? && Identity(before, step.w).Some? && Identity(before, step.w).value.role.Desktop?
      then Some(step.w)
      else if step.LeaveSlot? && LastEntered(before) == Some(step.w) then None
      else LastEntered(before)
  }

  lemma EnteredTakesSlot(s: State, w: Socket)
    requires w in s.phase && s.phase[w].Joined?
    ensures Entered(s, w).tables.slot == if s.phase[w].role.Desktop? then Some(w) else s.tables.slot
  {
    hide Notices;
  }

  // In every run the slot holds exactly that desktop.
  lemma {:induction false} SlotIsLastEntered(steps: seq<Step>)
    requires Runs(steps)
    ensures After(steps).tables.slot == LastEntered(steps)
  {
    if steps != [] {
      var before, step := steps[..|steps| - 1], steps[|steps| - 1];
      SlotIsLastEntered(before);
      if step.Enter? {
        HandlersAreWhoTheySaid(before, step.w);
        EnteredTakesSlot(After(before), step.w);
        hide Entered;
      } else if !step.LeaveSlot? {
        hide Enabled, Next;
        SlotUntouched(After(before), step);
      }
    }
  }

  // ----- where a message goes

  // The socket is to get this message: it holds the target id or, for a
  // broadcast, any id but the sender's.
  ghost predicate IsFor(steps: seq<Step>, sender: DeviceId, target: Target, t: Socket) {
    match target
    case Unicast(d) => Holder(steps, d) == Some(t)
    case Broadcast => exists d :: d != sender && Holder(steps, d) == Some(t)
    case _ => false
  }

  ghost predicate CopiesSay(outbox: seq<Sent>, key: (DeviceId, nat), body: Body) {
    forall k :: 0 <= k < |outbox| && outbox[k].Relayed? && (outbox[k].sender, outbox[k].index) == key ==>
      outbox[k].body == body
  }

  // The routing handler's message is the last that its id has said.
  lemma LastMessage(before: seq<Step>, w: Socket)
    requires Runs(before) && Held(before, w).Some?
    ensures var p := PhaseOf(After(before), w);
            && p.Relaying? && Identity(before, w) == Some(Who(p.id, p.role))
            && p.index + 1 == |Messages(before, p.id)|
            && p.target == Held(before, w).value.target && p.body == Held(before, w).value.body
            && p.body == Messages(before, p.id)[p.index].body
  {
    RoutedIsHeld(before, w);
    HandlersAreWhoTheySaid(before, w);
    ReachableDelivers(before);
    var p := PhaseOf(After(before), w);
    HeardIsReceived(before, p.id);
    BodiesAt(Messages(before, p.id));
    assert HasMessage(p);
    hide After, Runs, Held, Identity, Messages, CopiesFit, InOrder, Arrived, ListsFit, Complete, Bodies;
  }

  lemma {:induction false} MessagesGrow(before: seq<Step>, later: seq<Step>, id: DeviceId)
    ensures Messages(before, id) <= Messages(before + later, id)
    decreases |later|
  {
    if later == [] {
      assert before + later == before;
    } else {
      var shorter := later[..|later| - 1];
      assert (before + later)[..|before + later| - 1] == before + shorter;
      MessagesGrow(before, shorter, id);
      hide Brings;
    }
  }

  // Every copy of a message, ever after, repeats what was received.
  lemma CopiesRepeat(before: seq<Step>, later: seq<Step>, id: DeviceId, index: nat)
    requires Runs(before + later) && index < |Messages(before, id)|
    ensures CopiesSay(After(before + later).outbox, (id, index), Messages(before, id)[index].body)
  {
    var all := before + later;
    MessagesGrow(before, later, id);
    HeardIsReceived(all, id);
    BodiesAt(Messages(all, id));
    ReachableDelivers(all);
    hide Runs, After, Messages, Bodies, InOrder, Arrived, ListsFit, HandlersFit, Complete, Includes, Tried;
  }

  lemma CopyWasTried(s: State, key: (DeviceId, nat), t: Socket, to: Recipients)
    requires CopiesFit(s.outbox, s.heard, s.attempts) && HasCopy(s.outbox, t, key) && Tried(s.attempts, key) <= to
    ensures Includes(to, t)
  {
    hide Said, Tried;
    var k :| 0 <= k < |s.outbox| && IsCopy(s.outbox[k], t, key);
    var tried := Tried(s.attempts, key);
    assert Includes(tried, t);
    var j :| 0 <= j < |tried| && tried[j].1 == t;
    assert to[j] == tried[j];
  }

  lemma SnapshotIsFor(before: seq<Step>, sender: DeviceId, to: Recipients, t: Socket)
    requires Runs(before) && IsSnapshot(After(before).tables, sender, to) && Includes(to, t)
    ensures IsFor(before, sender, Broadcast, t)
  {
    hide Holder;
    var j :| 0 <= j < |to| && to[j].1 == t;
    RegistryIsHolders(before, to[j].0);
  }

  // A copy of the routed message only ever goes to whom it was for.
  lemma CopiesGoWhereMeant(before: seq<Step>, w: Socket, to: Recipients, later: seq<Step>, t: Socket)
    requires Runs(before + [TakeSnapshot(w, to)] + later)
    ensures Runs(before) && Enabled(After(before), TakeSnapshot(w, to))
    ensures var p := After(before).phase[w];
            HasCopy(After(before + [TakeSnapshot(w, to)] + later).outbox, t, (p.id, p.index)) ==>
              IsFor(before, p.id, p.target, t)
  {
    BroadcastTriedOnce(before, w, to, later);
    UnicastTriedOnce(before, w, to, later);
    UndeliverableIsNeverSent(before, w, to, later, t);
    var all := before + [TakeSnapshot(w, to)] + later;
    var s, p := After(before), After(before).phase[w];
    var key := (p.id, p.index);
    var s' := After(all);
    hide Enabled, Runs, After, HasCopy, Tried, Holder, IsSnapshot;
    if HasCopy(s'.outbox, t, key) {
      assert CopiesFit(s'.outbox, s'.heard, s'.attempts) by { ReachableDelivers(all); }
      if p.target.Broadcast? {
        CopyWasTried(s', key, t, to);
        SnapshotIsFor(before, p.id, to, t);
      } else if p.target.Unicast? && p.target.id in s.tables.registry {
        CopyWasTried(s', key, t, [(p.target.id, s.tables.registry[p.target.id])]);
        RegistryIsHolders(before, p.target.id);
      }
    }
  }

  // Everyone it was for who is still connected was sent it, once its handler
  // has moved on.
  lemma MeantCopiesArrive(before: seq<Step>, w: Socket, to: Recipients, later: seq<Step>, t: Socket)
    requires Runs(before + [TakeSnapshot(w, to)] + later)
    ensures Runs(before) && Enabled(After(before), TakeSnapshot(w, to))
    ensures var p := After(before).phase[w];
            var key := (p.id, p.index);
            var s' := After(before + [TakeSnapshot(w, to)] + later);
            IsFor(before, p.id, p.target, t) && t !in s'.closed
            && (forall v :: v in s'.phase ==> !IsSending(s'.phase[v], key)) ==>
              HasCopy(s'.outbox, t, key)
  {
    UnicastTriedOnce(before, w, to, later);
    var all := before + [TakeSnapshot(w, to)] + later;
    var s, p := After(before), After(before).phase[w];
    var key := (p.id, p.index);
    var s' := After(all);
    if IsFor(before, p.id, p.target, t) && t !in s'.closed
       && (forall v :: v in s'.phase ==> !IsSending(s'.phase[v], key)) {
      hide Enabled, Runs, After, HasCopy, IsSnapshot, IsSending;
      if p.target.Broadcast? {
        var d :| d != p.id && Holder(before, d) == Some(t);
        RegistryIsHolders(before, d);
        BroadcastArrives(before, w, to, later, d);
      } else {
        RegistryIsHolders(before, p.target.id);
        assert Arrived(s'.outbox, s'.closed, s'.attempts) by { ReachableDelivers(all); }
        assert Tried(s'.attempts, key)[0].1 == t;
      }
    }
  }

  // One message, by the steps alone. The frame that a handler holds when it
  // looks up the recipients goes, with that frame's own body, to the holder of
  // its target id, or to every holder of another id, and to nobody else.
  lemma RelayedExactly(before: seq<Step>, w: Socket, to: Recipients, later: seq<Step>, t: Socket)
    requires Runs(before + [TakeSnapshot(w, to)] + later)
    ensures Held(before, w).Some? && Identity(before, w).Some?
    ensures Messages(before, Identity(before, w).value.id) != []
    ensures var id, message := Identity(before, w).value.id, Held(before, w).value;
            var key: (DeviceId, nat) := (id, |Messages(before, id)| - 1);
            var s' := After(before + [TakeSnapshot(w, to)] + later);
            && CopiesSay(s'.outbox, key, message.body)
            && (HasCopy(s'.outbox, t, key) ==> IsFor(before, id, message.target, t))
            && (t !in s'.closed && (forall v :: v in s'.phase ==> !IsSending(s'.phase[v], key)) ==>
                  (HasCopy(s'.outbox, t, key) <==> IsFor(before, id, message.target, t)))
  {
    hide Runs, After, Held, Identity, Messages, Bodies, IsFor, HasCopy, CopiesSay, IsSending;
    CopiesGoWhereMeant(before, w, to, later, t);
    MeantCopiesArrive(before, w, to, later, t);
    RoutedIsHeld(before, w);
    assert Held(before, w).Some?;
    LastMessage(before, w);
    var id := Identity(before, w).value.id;
    assert before + [TakeSnapshot(w, to)] + later == before + ([TakeSnapshot(w, to)] + later);
    CopiesRepeat(before, [TakeSnapshot(w, to)] + later, id, |Messages(before, id)| - 1);
  }

  lemma EarlierRuns(before: seq<Step>, later: seq<Step>)
    requires Runs(before + later)
    ensures Runs(before)
  {
    assert (before + later)[..|before|] == before;
    PrefixRuns(before + later, |before|);
  }

  // From the frame to its copies: whatever happens while it waits and after it
  // is routed, its copies carry its body and go where it says.
  lemma FrameGoesWhereItSays(before: seq<Step>, w: Socket, frame: Frame, mid: seq<Step>, to: Recipients,
                             later: seq<Step>, t: Socket)
    requires Runs(before + [Receive(w, frame)] + mid + [TakeSnapshot(w, to)] + later)
    requires forall st :: st in mid && st.w == w ==> !st.Receive? && !st.TakeSnapshot?
    ensures Identity(before, w).Some? && IsRelayable(Identity(before, w).value.role, frame)
    ensures var waiting := before + [Receive(w, frame)] + mid;
            var id := Identity(before, w).value.id;
            && Identity(waiting, w) == Identity(before, w) && Messages(waiting, id) != []
            && var key: (DeviceId, nat) := (id, |Messages(waiting, id)| - 1);
            var s' := After(waiting + [TakeSnapshot(w, to)] + later);
            && CopiesSay(s'.outbox, key, frame.body)
            && (HasCopy(s'.outbox, t, key) ==> IsFor(waiting, id, frame.target, t))
            && (t !in s'.closed && (forall v :: v in s'.phase ==> !IsSending(s'.phase[v], key)) ==>
                  (HasCopy(s'.outbox, t, key) <==> IsFor(waiting, id, frame.target, t)))
  {
    var received := before + [Receive(w, frame)];
    var waiting := received + mid;
    hide Runs, After, Held, Messages, Bodies, IsFor, HasCopy, CopiesSay, IsSending, IsRelayable, Identity;
    RelayedExactly(waiting, w, to, later, t);
    assert waiting + ([TakeSnapshot(w, to)] + later) == waiting + [TakeSnapshot(w, to)] + later;
    EarlierRuns(waiting, [TakeSnapshot(w, to)] + later);
    HeldOn(received, mid, w);
    EarlierRuns(received, mid);
    ReceivedIsHeld(before, w, frame);
    IdentityStays(received, mid, w);
  }

  lemma ReceivedIsHeld(before: seq<Step>, w: Socket, frame: Frame)
    requires Runs(before + [Receive(w, frame)])
    ensures Identity(before, w).Some? && Identity(before + [Receive(w, frame)], w) == Identity(before, w)
    ensures Held(before + [Receive(w, frame)], w) ==
            if IsRelayable(Identity(before, w).value.role, frame) then Some(Message(frame.target, frame.body)) else None
  {
    var received := before + [Receive(w, frame)];
    assert received[..|received| - 1] == before;
    RoutedIsHeld(before, w);
    ReceiverIsWho(before, Receive(w, frame));
    hide IsRelayable, Next;
  }

  // Who is relaying does not authenticate anew.
  lemma {:induction false} IdentityStays(steps: seq<Step>, mid: seq<Step>, w: Socket)
    requires Runs(steps + mid) && Held(steps, w).Some?
    requires forall st :: st in mid && st.w == w ==> !st.Receive? && !st.TakeSnapshot?
    ensures Identity(steps + mid, w) == Identity(steps, w)
    decreases |mid|
  {
    if mid == [] {
      assert steps + mid == steps;
    } else {
      var shorter, step := mid[..|mid| - 1], mid[|mid| - 1];
      assert (steps + mid)[..|steps + mid| - 1] == steps + shorter;
      IdentityStays(steps, shorter, w);
      HeldOn(steps, shorter, w);
      RoutedIsHeld(steps + shorter, w);
      hide Next, Held;
    }
  }
}
