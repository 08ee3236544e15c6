// The gateway's shared tables and the operations on them, and the gateway as a
// step system: each step is what one connection handler does between awaits.
module Gateway {
  import Labels = RelayLabels
  import opened Wrappers

  type Socket = nat
  type DeviceId = string
  type RequestId = string
  type Body = string

  datatype Role = Desktop | Device

  // _registry, _device_roles, _desktop_ws and _pairing_pending
  datatype Tables = Tables(
    registry: map<DeviceId, Socket>,
    roles: map<DeviceId, Role>,
    slot: Option<Socket>,
    pending: map<RequestId, Socket>)

  // ----- the operations on the tables

  // register: a device id that is taken keeps its socket
  function Register(t: Tables, id: DeviceId, ws: Socket, role: Role): (Tables, bool) {
    if id in t.registry then (t, t.registry[id] == ws)
    else (t.(registry := t.registry[id := ws], roles := t.roles[id := role]), true)
  }

  // unregister: only the socket that holds the id gives it up
  function Unregister(t: Tables, id: DeviceId, ws: Socket): (Tables, Option<Role>) {
    if id in t.registry && t.registry[id] == ws then
      (t.(registry := t.registry - {id}, roles := t.roles - {id}),
       if id in t.roles then Some(t.roles[id]) else None)
    else (t, None)
  }

  // _register_desktop_ws and _unregister_desktop_ws
  function SetDesktop(t: Tables, ws: Socket): Tables { t.(slot := Some(ws)) }

  function ClearDesktop(t: Tables, ws: Socket): Tables {
    if t.slot == Some(ws) then t.(slot := None) else t
  }

  function StoreRequest(t: Tables, rid: RequestId, ws: Socket): Tables {
    t.(pending := t.pending[rid := ws])
  }

  function PopRequest(t: Tables, rid: RequestId): (Tables, Option<Socket>) {
    if rid in t.pending then (t.(pending := t.pending - {rid}), Some(t.pending[rid])) else (t, None)
  }

  // The module-level state as the handlers update it.
  class Relay {
    var registry: map<DeviceId, Socket>
    var roles: map<DeviceId, Role>
    var desktop: Option<Socket>
    var pending: map<RequestId, Socket>

    constructor ()
      ensures State() == Tables(map[], map[], None, map[])
    {
      registry, roles, desktop, pending := map[], map[], None, map[];
    }

    function State(): Tables
      reads this
    {
      Tables(registry, roles, desktop, pending)
    }

    method RegisterDevice(id: DeviceId, ws: Socket, role: Role) returns (ok: bool)
      modifies this
      ensures (State(), ok) == Register(old(State()), id, ws, role)
    {
      if id in registry {
        return registry[id] == ws;
      }
      registry := registry[id := ws];
      roles := roles[id := role];
      return true;
    }

    method UnregisterDevice(id: DeviceId, ws: Socket) returns (role: Option<Role>)
      modifies this
      ensures (State(), role) == Unregister(old(State()), id, ws)
    {
      role := None;
      if id in registry && registry[id] == ws {
        registry := registry - {id};
        if id in roles {
          role := Some(roles[id]);
        }
        roles := roles - {id};
      }
    }

    method RegisterDesktopSocket(ws: Socket)
      modifies this
      ensures State() == SetDesktop(old(State()), ws)
    {
      desktop := Some(ws);
    }

    method UnregisterDesktopSocket(ws: Socket)
      modifies this
      ensures State() == ClearDesktop(old(State()), ws)
    {
      if desktop == Some(ws) {
        desktop := None;
      }
    }

    method AddPending(rid: RequestId, ws: Socket)
      modifies this
      ensures State() == StoreRequest(old(State()), rid, ws)
    {
      pending := pending[rid := ws];
    }

    method PopPending(rid: RequestId) returns (ws: Option<Socket>)
      modifies this
      ensures (State(), ws) == PopRequest(old(State()), rid)
    {
      ws := if rid in pending then Some(pending[rid]) else None;
      pending := pending - {rid};
      assert rid !in old(pending) ==> pending == old(pending);
    }

    // The recipients of a broadcast: every other registered device, once.
    method Others(sender: DeviceId) returns (to: Recipients)
      ensures IsSnapshot(State(), sender, to)
    {
      to := [];
      var left := registry.Keys - {sender};
      while left != {}
        invariant left <= registry.Keys - {sender}
        invariant forall i :: 0 <= i < |to| ==>
                    (to[i].0 in registry && to[i].0 != sender && to[i].0 !in left && to[i].1 == registry[to[i].0])
        invariant forall i, j :: 0 <= i < j < |to| ==> to[i].0 != to[j].0
        invariant forall id :: id in registry && id != sender && id !in left ==> (id, registry[id]) in to
        decreases |left|
      {
        var id :| id in left;
        to := to + [(id, registry[id])];
        left := left - {id};
      }
    }
  }

  // ----- what peers send and are sent

  datatype Target = Broadcast | Unicast(id: DeviceId) | Nobody | Unhashable

  // A frame: not JSON, one whose parsing fails in another way (bytes that are no
  // UTF-8, a number too long, nesting too deep), JSON that is not an object, or an
  // object with its target, its payload and, when it looks like one, a pairing
  // response.
  datatype Frame =
    | NotJson
    | Unreadable
    | NotObject
    | Object(target: Target, answer: Option<Answer>, body: Body, payload: Labels.Payload)

  // A pairing response; one without a request id or a known status is ignored.
  datatype Answer = Answer(rid: Option<RequestId>, statusKnown: bool)

  datatype Sent =
    | Relayed(to: Socket, sender: DeviceId, index: nat, body: Body)
    | Asked(to: Socket, rid: RequestId)
    | Replied(to: Socket, rid: RequestId)
    | Notice(to: Socket)

  // ----- the phases of a connection handler

  datatype Phase =
    | AwaitAuth
    | PairStart
    | PairStore(desktop: Socket)
    | PairForward(rid: RequestId, desktop: Socket)
    | PairAck(rid: RequestId)
    | PairWait(rid: RequestId)
    | PairExpired
    | Authed(id: DeviceId, role: Role)
    | Rejecting
    | Joined(id: DeviceId, role: Role)
    | Open(id: DeviceId, role: Role)
    | Answering(id: DeviceId, rid: RequestId, to: Socket)
    | Relaying(id: DeviceId, role: Role, index: nat, body: Body, target: Target)
    | Sending(id: DeviceId, role: Role, index: nat, body: Body, rest: Recipients)
    | ClosingSlot(id: DeviceId)
    | Unregistering(id: DeviceId, role: Role)
    | Leaving(id: DeviceId)
    | Done

  datatype Outcome = Pending | Claimed(holder: Socket) | Answered | Expired | Lost

  datatype State = State(
    tables: Tables,
    lock: Option<Socket>,               // the holder of the registry lock across an await
    phase: map<Socket, Phase>,
    closed: set<Socket>,
    outbox: seq<Sent>,                  // everything sent, in order
    heard: map<DeviceId, seq<Body>>,    // what each sender id has said to all or to one
    asked: map<RequestId, Socket>,      // who asked each pairing request
    outcome: map<RequestId, Outcome>,   // what became of it
    snapshots: map<(DeviceId, nat), Recipients>,
    attempts: map<(DeviceId, nat), Recipients>)

  function Start(): State {
    State(Tables(map[], map[], None, map[]), None, map[], {}, [], map[], map[], map[], map[], map[])
  }

  type Recipients = seq<(DeviceId, Socket)>

  // What a sender id has said so far, and whom a message has been tried on.
  function Said(heard: map<DeviceId, seq<Body>>, id: DeviceId): seq<Body> {
    if id in heard then heard[id] else []
  }

  function Tried(attempts: map<(DeviceId, nat), Recipients>, key: (DeviceId, nat)): Recipients {
    if key in attempts then attempts[key] else []
  }

  // Every other registered device once, with its socket, in some order.
  ghost predicate IsSnapshot(t: Tables, sender: DeviceId, to: Recipients) {
    && (forall i :: 0 <= i < |to| ==> to[i].0 in t.registry && to[i].0 != sender && to[i].1 == t.registry[to[i].0])
    && (forall i, j :: 0 <= i < j < |to| ==> to[i].0 != to[j].0)
    && (forall id :: id in t.registry && id != sender ==> (id, t.registry[id]) in to)
  }

  // ----- the steps

  datatype Step =
    | Connect(w: Socket)
    | Hangup(w: Socket)                                   // the peer closes its socket
    | AuthFails(w: Socket)                                // rejected, timed out or gone
    | AuthPasses(w: Socket, id: DeviceId, role: Role)
    | BeginPairing(w: Socket)
    | ReadSlot(w: Socket)
    | Store(w: Socket, rid: RequestId)
    | Forward(w: Socket)
    | Acknowledge(w: Socket)
    | ClientGone(w: Socket)
    | Timeout(w: Socket)
    | CloseExpired(w: Socket)
    | TryRegister(w: Socket)
    | FinishReject(w: Socket)
    | Enter(w: Socket)                                    // set the slot, or announce the device
    | Receive(w: Socket, frame: Frame)
    | SendAnswer(w: Socket)
    | TakeSnapshot(w: Socket, to: Recipients)
    | SendNext(w: Socket)
    | EndOfStream(w: Socket)
    | LeaveSlot(w: Socket)
    | LeaveRegistry(w: Socket)
    | Announce(w: Socket)

  // The phase a handler must be in for a step, and the lock it needs.
  ghost predicate Enabled(s: State, step: Step) {
    var w := step.w;
    if step.Connect? then w !in s.phase
    else w in s.phase && match step
      case Connect(_) => true
      case Hangup(_) => true
      case AuthFails(_) => s.phase[w].AwaitAuth?
      case AuthPasses(_, _, _) => s.phase[w].AwaitAuth?
      case BeginPairing(_) => s.phase[w].AwaitAuth?
      case ReadSlot(_) => s.phase[w].PairStart?
      case Store(_, rid) => s.phase[w].PairStore? && rid !in s.asked
      case Forward(_) => s.phase[w].PairForward?
      case Acknowledge(_) => s.phase[w].PairAck?
      case ClientGone(_) => s.phase[w].PairWait? && w in s.closed
      case Timeout(_) => s.phase[w].PairWait?
      case CloseExpired(_) => s.phase[w].PairExpired?
      case TryRegister(_) => s.phase[w].Authed? && s.lock.None?
      case FinishReject(_) => s.phase[w].Rejecting?
      case Enter(_) => s.phase[w].Joined?
      case Receive(_, _) => s.phase[w].Open?
      case SendAnswer(_) => s.phase[w].Answering?
      case TakeSnapshot(_, to) =>
        && s.phase[w].Relaying? && s.lock.None?
        && (s.phase[w].target.Broadcast? ==> IsSnapshot(s.tables, s.phase[w].id, to))
      case SendNext(_) => s.phase[w].Sending?
      case EndOfStream(_) => s.phase[w].Open? && w in s.closed
      case LeaveSlot(_) => s.phase[w].ClosingSlot?
      case LeaveRegistry(_) => s.phase[w].Unregistering? && s.lock.None?
      case Announce(_) => s.phase[w].Leaving?
  }

  function Goto(s: State, w: Socket, p: Phase): State {
    s.(phase := s.phase[w := p])
  }

  // The end of the message loop: a desktop clears its slot first.
  function Closing(id: DeviceId, role: Role): Phase {
    if role.Desktop? then ClosingSlot(id) else Unregistering(id, role)
  }

  // _notify_desktop_device_event: sent if there is a desktop, failures ignored
  function Notices(s: State): seq<Sent> {
    if s.tables.slot.Some? && s.tables.slot.value !in s.closed then [Notice(s.tables.slot.value)] else []
  }

  function Notify(s: State): State { s.(outbox := s.outbox + Notices(s)) }

  // A frame that ends the session of the handler that receives it: it cannot be
  // read, it is no object, or computing its labels for the log raises.
  predicate EndsReceiver(role: Role, frame: Frame) {
    match frame
    case NotJson => false
    case Unreadable => true
    case NotObject => true
    case Object(target, answer, _, payload) =>
      !(role.Desktop? && answer.Some?) && Labels.LabelsRaise(payload, role.Desktop?, target.Unhashable?)
  }

  // One frame from a registered peer.
  function Hear(s: State, w: Socket, frame: Frame): State
    requires w in s.phase && s.phase[w].Open?
  {
    var id, role := s.phase[w].id, s.phase[w].role;
    if EndsReceiver(role, frame) then Goto(s, w, Closing(id, role))
    else match frame
      case Object(target, answer, body, _) =>
        if role.Desktop? && answer.Some? then Claim(s, w, answer.value)
        else
          var said := Said(s.heard, id);
          Goto(s.(heard := s.heard[id := said + [body]]), w, Relaying(id, role, |said|, body, target))
      case _ => s
  }

  // _handle_pairing_response_from_desktop, up to sending the response
  function Claim(s: State, w: Socket, answer: Answer): State
    requires w in s.phase && s.phase[w].Open?
  {
    if answer.rid.None? || !answer.statusKnown then s
    else
      var rid := answer.rid.value;
      var p := PopRequest(s.tables, rid);
      if p.1.None? then s
      else Goto(s.(tables := p.0, outcome := s.outcome[rid := Claimed(w)]), w,
                Answering(s.phase[w].id, rid, p.1.value))
  }

  // relay_message, under the lock: who is to get this message
  function Chosen(t: Tables, target: Target, to: Recipients): Option<Recipients> {
    match target
    case Broadcast => Some(to)
    case Unicast(d) => if d in t.registry then Some([(d, t.registry[d])]) else None
    case _ => None
  }

  function Route(s: State, w: Socket, to: Recipients): State
    requires w in s.phase && s.phase[w].Relaying?
  {
    var Relaying(id, role, index, body, target) := s.phase[w];
    var chosen := Chosen(s.tables, target, to);
    if chosen.Some? then
      Goto(s.(snapshots := s.snapshots[(id, index) := chosen.value]), w, Sending(id, role, index, body, chosen.value))
    else
      Goto(s, w, if target.Unhashable? then Closing(id, role) else Open(id, role))
  }

  // relay_message, one send: a failure is logged and the rest still go out
  function Deliver(s: State, w: Socket): State
    requires w in s.phase && s.phase[w].Sending?
  {
    var Sending(id, role, index, body, rest) := s.phase[w];
    if rest == [] then Goto(s, w, Open(id, role))
    else
      var t := rest[0].1;
      var key := (id, index);
      var copy := if t in s.closed then [] else [Relayed(t, id, index, body)];
      Goto(s.(attempts := s.attempts[key := Tried(s.attempts, key) + [rest[0]]], outbox := s.outbox + copy), w,
           Sending(id, role, index, body, rest[1..]))
  }

  // ----- the remaining steps, one function each

  function AuthPassed(s: State, w: Socket, id: DeviceId, role: Role): State {
    if w in s.closed then Goto(s, w, Done)
    else Goto(s.(outbox := s.outbox + [Notice(w)]), w, Authed(id, role))
  }

  function CloseAndEnd(s: State, w: Socket): State {
    Goto(s.(closed := s.closed + {w}), w, Done)
  }

  // _forward_pairing_request, segment by segment
  function SlotRead(s: State, w: Socket): State {
    if s.tables.slot.Some? then Goto(s, w, PairStore(s.tables.slot.value)) else CloseAndEnd(s, w)
  }

  function RequestStored(s: State, w: Socket, rid: RequestId): State
    requires w in s.phase && s.phase[w].PairStore?
  {
    Goto(s.(tables := StoreRequest(s.tables, rid, w), asked := s.asked[rid := w], outcome := s.outcome[rid := Pending]),
         w, PairForward(rid, s.phase[w].desktop))
  }

  function RequestForwarded(s: State, w: Socket): State
    requires w in s.phase && s.phase[w].PairForward?
  {
    var PairForward(rid, desktop) := s.phase[w];
    if desktop in s.closed then CloseAndEnd(s, w)
    else Goto(s.(outbox := s.outbox + [Asked(desktop, rid)]), w, PairAck(rid))
  }

  function RequestAcknowledged(s: State, w: Socket): State
    requires w in s.phase && s.phase[w].PairAck?
  {
    if w in s.closed then Goto(s, w, Done)
    else Goto(s.(outbox := s.outbox + [Notice(w)]), w, PairWait(s.phase[w].rid))
  }

  function TimedOut(s: State, w: Socket): State
    requires w in s.phase && s.phase[w].PairWait?
  {
    var rid := s.phase[w].rid;
    var p := PopRequest(s.tables, rid);
    Goto(s.(tables := p.0, outcome := if p.1.Some? then s.outcome[rid := Expired] else s.outcome), w, PairExpired)
  }

  // register, under the registry lock; a rejected handler keeps the lock while
  // it closes its own socket
  function Registering(s: State, w: Socket): State
    requires w in s.phase && s.phase[w].Authed?
  {
    var Authed(id, role) := s.phase[w];
    var r := Register(s.tables, id, w, role);
    if r.1 then Goto(s.(tables := r.0), w, Joined(id, role))
    else Goto(s.(lock := Some(w), closed := s.closed + {w}), w, Rejecting)
  }

  function Entered(s: State, w: Socket): State
    requires w in s.phase && s.phase[w].Joined?
  {
    var Joined(id, role) := s.phase[w];
    if role.Desktop? then Goto(s.(tables := SetDesktop(s.tables, w)), w, Open(id, role))
    else Goto(Notify(s), w, Open(id, role))
  }

  // Sending the pairing response: the socket is closed either way, and a send
  // that fails ends the desktop's own message loop.
  function AnswerSent(s: State, w: Socket): State
    requires w in s.phase && s.phase[w].Answering?
  {
    var Answering(id, rid, to) := s.phase[w];
    if to in s.closed then Goto(s.(outcome := s.outcome[rid := Lost]), w, ClosingSlot(id))
    else Goto(s.(outbox := s.outbox + [Replied(to, rid)], outcome := s.outcome[rid := Answered],
                 closed := s.closed + {to}), w, Open(id, Desktop))
  }

  function RegistryLeft(s: State, w: Socket): State
    requires w in s.phase && s.phase[w].Unregistering?
  {
    var r := Unregister(s.tables, s.phase[w].id, w);
    Goto(s.(tables := r.0), w, if r.1 == Some(Device) then Leaving(s.phase[w].id) else Done)
  }

  function Next(s: State, step: Step): State
    requires Enabled(s, step)
  {
    match step
    case Connect(w) => Goto(s, w, AwaitAuth)
    case Hangup(w) => s.(closed := s.closed + {w})
    case AuthFails(w) => CloseAndEnd(s, w)
    case AuthPasses(w, id, role) => AuthPassed(s, w, id, role)
    case BeginPairing(w) => Goto(s, w, PairStart)
    case ReadSlot(w) => SlotRead(s, w)
    case Store(w, rid) => RequestStored(s, w, rid)
    case Forward(w) => RequestForwarded(s, w)
    case Acknowledge(w) => RequestAcknowledged(s, w)
    case ClientGone(w) => Goto(s, w, Done)
    case Timeout(w) => TimedOut(s, w)
    case CloseExpired(w) => CloseAndEnd(s, w)
    case TryRegister(w) => Registering(s, w)
    case FinishReject(w) => Goto(s.(lock := None), w, Done)
    case Enter(w) => Entered(s, w)
    case Receive(w, frame) => Hear(s, w, frame)
    case SendAnswer(w) => AnswerSent(s, w)
    case TakeSnapshot(w, to) => Route(s, w, to)
    case SendNext(w) => Deliver(s, w)
    case EndOfStream(w) => Goto(s, w, Closing(s.phase[w].id, s.phase[w].role))
    case LeaveSlot(w) => Goto(s.(tables := ClearDesktop(s.tables, w)), w, Unregistering(s.phase[w].id, Desktop))
    case LeaveRegistry(w) => RegistryLeft(s, w)
    case Announce(w) => Goto(Notify(s), w, Done)
  }

  // A run: every step enabled where it happens.
  ghost predicate Runs(steps: seq<Step>)
    decreases |steps|, 0
  {
    steps == [] || (Runs(steps[..|steps| - 1]) && Enabled(After(steps[..|steps| - 1]), steps[|steps| - 1]))
  }

  ghost function After(steps: seq<Step>): State
    requires Runs(steps)
    decreases |steps|, 1
  {
    if steps == [] then Start() else Next(After(steps[..|steps| - 1]), steps[|steps| - 1])
  }
}
