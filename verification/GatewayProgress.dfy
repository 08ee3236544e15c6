// No handler of the gateway is ever stuck: from every reachable state each
// message can be sent out and each handler brought to its end.
module GatewayProgress {
  import opened Gateway
  import opened GatewayFrames
  import opened GatewayInvariant
  import opened GatewayDepartures
  import opened GatewayHistory

  lemma Do(steps: seq<Step>, step: Step)
    requires Runs(steps) && Enabled(After(steps), step)
    ensures Runs(steps + [step]) && After(steps + [step]) == Next(After(steps), step)
  {
    assert (steps + [step])[..|steps|] == steps;
    hide Next, Enabled;
  }

  // The handler's own steps, and the end of a rejection that holds the lock.
  ghost predicate OwnSteps(more: seq<Step>, w: Socket) {
    forall st :: st in more ==> st.w == w || st.FinishReject?
  }

  // The run goes on by own steps to a state in which the handler is in phase p.
  ghost predicate LeadsTo(steps: seq<Step>, w: Socket, more: seq<Step>, p: Phase) {
    Runs(steps + more) && OwnSteps(more, w) && w in After(steps + more).phase && After(steps + more).phase[w] == p
  }

  lemma Steps(steps: seq<Step>, step: Step)
    requires Runs(steps) && Enabled(After(steps), step)
    ensures LeadsTo(steps, step.w, [step], PhaseOf(Next(After(steps), step), step.w))
  {
    Do(steps, step);
    StepStays(After(steps), step);
    hide Next, Enabled;
  }

  lemma StepStays(s: State, step: Step)
    requires Enabled(s, step)
    ensures step.w in Next(s, step).phase
  {
    if step.Connect? {
    } else if IsAside(step) {
      hide Next, IsAside, SameBooks;
      AsideStep(s, step);
    } else {
      hide Enabled, Next;
      BusyMoves(s, step);
    }
  }

  lemma Then(steps: seq<Step>, w: Socket, first: seq<Step>, second: seq<Step>, p: Phase)
    requires Runs(steps + first) && OwnSteps(first, w) && LeadsTo(steps + first, w, second, p)
    ensures LeadsTo(steps, w, first + second, p)
  {
    hide Runs, After, OwnSteps;
    assert steps + (first + second) == steps + first + second;
    BothOwn(first, second, w);
  }

  lemma BothOwn(first: seq<Step>, second: seq<Step>, w: Socket)
    requires OwnSteps(first, w) && OwnSteps(second, w)
    ensures OwnSteps(first + second, w)
  {
  }

  // ----- sending a message out

  lemma DeliverTurns(s: State, w: Socket)
    requires w in s.phase && s.phase[w].Sending?
    ensures var p := s.phase[w];
            PhaseOf(Deliver(s, w), w) ==
            if p.rest == [] then Open(p.id, p.role) else p.(rest := p.rest[1..])
  {
    hide Tried;
  }

  // What is being sent can be sent to all that are left.
  lemma FinishSending(steps: seq<Step>, w: Socket) returns (more: seq<Step>)
    requires Runs(steps) && w in After(steps).phase && After(steps).phase[w].Sending?
    ensures var p := After(steps).phase[w];
            LeadsTo(steps, w, more, Open(p.id, p.role)) && |more| == |p.rest| + 1
    decreases |After(steps).phase[w].rest|
  {
    var p, step := After(steps).phase[w], SendNext(w);
    Steps(steps, step);
    DeliverTurns(After(steps), w);
    hide Deliver, Runs, After;
    more := [step];
    if p.rest != [] {
      var rest := FinishSending(steps + [step], w);
      Then(steps, w, [step], rest, Open(p.id, p.role));
      more := [step] + rest;
    }
  }

  // The lock can be had: whoever holds it is only closing its own socket.
  lemma FreeLock(steps: seq<Step>, w: Socket) returns (more: seq<Step>)
    requires Runs(steps) && w in After(steps).phase && !After(steps).phase[w].Rejecting?
    ensures LeadsTo(steps, w, more, After(steps).phase[w]) && After(steps + more).lock.None?
    ensures After(steps + more).tables == After(steps).tables
  {
    var s := After(steps);
    if s.lock.None? {
      more := [];
      assert steps + more == steps;
    } else {
      ReachableInv(steps);
      var h := s.lock.value;
      assert h in s.phase && s.phase[h].Rejecting? by { hide RegistryFits, SlotFits, RequestsFit; }
      more := [FinishReject(h)];
      Do(steps, FinishReject(h));
      hide Runs, After, Inv;
    }
  }

  // Some order of the other devices always exists.
  lemma {:induction false} SnapshotOf(t: Tables, sender: DeviceId, ids: set<DeviceId>) returns (to: Recipients)
    requires ids <= t.registry.Keys - {sender}
    ensures forall i :: 0 <= i < |to| ==> to[i].0 in ids && to[i].1 == t.registry[to[i].0]
    ensures forall i, j :: 0 <= i < j < |to| ==> to[i].0 != to[j].0
    ensures forall id :: id in ids ==> (id, t.registry[id]) in to
    decreases |ids|
  {
    to := [];
    if ids != {} {
      var id :| id in ids;
      var rest := SnapshotOf(t, sender, ids - {id});
      to := [(id, t.registry[id])] + rest;
    }
  }

  lemma SnapshotExists(t: Tables, sender: DeviceId) returns (to: Recipients)
    ensures IsSnapshot(t, sender, to)
  {
    to := SnapshotOf(t, sender, t.registry.Keys - {sender});
  }

  lemma RouteTurns(s: State, w: Socket, to: Recipients)
    requires w in s.phase && s.phase[w].Relaying?
    ensures var p, p' := s.phase[w], PhaseOf(Route(s, w, to), w);
            || (p'.Sending? && p'.id == p.id && p'.role == p.role)
            || p' == (if p.target.Unhashable? then Closing(p.id, p.role) else Open(p.id, p.role))
  {
    hide Closing, Chosen;
  }

  // A message that waits for its recipients can be routed and sent out.
  lemma FinishRelaying(steps: seq<Step>, w: Socket) returns (more: seq<Step>, p: Phase)
    requires Runs(steps) && w in After(steps).phase && After(steps).phase[w].Relaying?
    ensures LeadsTo(steps, w, more, p)
    ensures var q := After(steps).phase[w];
            p == Open(q.id, q.role) || p == Closing(q.id, q.role)
  {
    var q := After(steps).phase[w];
    var free := FreeLock(steps, w);
    var ready := steps + free;
    var to := SnapshotExists(After(ready).tables, q.id);
    var step := TakeSnapshot(w, to);
    Steps(ready, step);
    RouteTurns(After(ready), w, to);
    hide Route, Runs, After, IsSnapshot, Closing;
    p := PhaseOf(Next(After(ready), step), w);
    Then(steps, w, free, [step], p);
    more := free + [step];
    assert ready + [step] == steps + more;
    if p.Sending? {
      var rest := FinishSending(steps + more, w);
      p := Open(q.id, q.role);
      Then(steps, w, more, rest, p);
      more := more + rest;
    }
  }

  // ----- bringing a handler to its end

  // How far a handler is from its end.
  function Rank(p: Phase): nat {
    match p
    case Done => 0
    case AwaitAuth => 1
    case Rejecting => 1
    case PairExpired => 1
    case Leaving(_) => 1
    case PairWait(_) => 2
    case Unregistering(_, _) => 2
    case PairAck(_) => 3
    case ClosingSlot(_) => 3
    case PairForward(_, _) => 4
    case Open(_, _) => 4
    case PairStore(_) => 5
    case Joined(_, _) => 5
    case Answering(_, _, _) => 5
    case Relaying(_, _, _, _, _) => 5
    case Sending(_, _, _, _, _) => 5
    case PairStart => 6
    case Authed(_, _) => 6
  }

  // The handler goes on to a phase nearer its end.
  ghost predicate Nearer(steps: seq<Step>, w: Socket, more: seq<Step>, p: Phase)
    requires Runs(steps) && w in After(steps).phase
  {
    LeadsTo(steps, w, more, p) && Rank(p) < Rank(After(steps).phase[w])
  }

  // There is always a request id that nobody has used.
  lemma {:induction false} FreshId(used: set<RequestId>) returns (n: nat)
    ensures forall rid :: rid in used ==> |rid| < n
    decreases |used|
  {
    n := 0;
    if used != {} {
      var rid :| rid in used;
      var m := FreshId(used - {rid});
      n := if |rid| < m then m else |rid| + 1;
    }
  }

  // The step that a handler which is not in its message loop takes next.
  function NextStep(p: Phase, w: Socket, rid: RequestId): Step {
    match p
    case AwaitAuth => AuthFails(w)
    case PairStart => ReadSlot(w)
    case PairStore(_) => Store(w, rid)
    case PairForward(_, _) => Forward(w)
    case PairAck(_) => Acknowledge(w)
    case PairWait(_) => Timeout(w)
    case PairExpired => CloseExpired(w)
    case Authed(_, _) => TryRegister(w)
    case Joined(_, _) => Enter(w)
    case Answering(_, _, _) => SendAnswer(w)
    case ClosingSlot(_) => LeaveSlot(w)
    case Unregistering(_, _) => LeaveRegistry(w)
    case Leaving(_) => Announce(w)
    case _ => FinishReject(w)
  }

  predicate InLoop(p: Phase) { p.Open? || p.Relaying? || p.Sending? }

  // This step can be taken, and takes the handler nearer its end.
  ghost predicate Advances(s: State, w: Socket, step: Step)
    requires w in s.phase
  {
    step.w == w && Enabled(s, step) && Rank(PhaseOf(Next(s, step), w)) < Rank(s.phase[w])
  }

  lemma AuthFailsTurns(s: State, w: Socket)
    requires w in s.phase && s.phase[w].AwaitAuth?
    ensures Advances(s, w, AuthFails(w))
  {
  }

  lemma ReadSlotTurns(s: State, w: Socket)
    requires w in s.phase && s.phase[w].PairStart?
    ensures Advances(s, w, ReadSlot(w))
  {
  }

  lemma StoreTurns(s: State, w: Socket, rid: RequestId)
    requires w in s.phase && s.phase[w].PairStore? && rid !in s.asked
    ensures Advances(s, w, Store(w, rid))
  {
  }

  lemma ForwardTurns(s: State, w: Socket)
    requires w in s.phase && s.phase[w].PairForward?
    ensures Advances(s, w, Forward(w))
  {
  }

  lemma AcknowledgeTurns(s: State, w: Socket)
    requires w in s.phase && s.phase[w].PairAck?
    ensures Advances(s, w, Acknowledge(w))
  {
  }

  lemma TimeoutTurns(s: State, w: Socket)
    requires w in s.phase && s.phase[w].PairWait?
    ensures Advances(s, w, Timeout(w))
  {
    hide PopRequest;
  }

  lemma CloseExpiredTurns(s: State, w: Socket)
    requires w in s.phase && s.phase[w].PairExpired?
    ensures Advances(s, w, CloseExpired(w))
  {
  }

  lemma TryRegisterTurns(s: State, w: Socket)
    requires w in s.phase && s.phase[w].Authed? && s.lock.None?
    ensures Advances(s, w, TryRegister(w))
  {
    hide Register;
  }

  lemma FinishRejectTurns(s: State, w: Socket)
    requires w in s.phase && s.phase[w].Rejecting?
    ensures Advances(s, w, FinishReject(w))
  {
  }

  lemma EnterTurns(s: State, w: Socket)
    requires w in s.phase && s.phase[w].Joined?
    ensures Advances(s, w, Enter(w))
  {
    hide Notices, SetDesktop;
  }

  lemma SendAnswerTurns(s: State, w: Socket)
    requires w in s.phase && s.phase[w].Answering?
    ensures Advances(s, w, SendAnswer(w))
  {
  }

  lemma LeaveSlotTurns(s: State, w: Socket)
    requires w in s.phase && s.phase[w].ClosingSlot?
    ensures Advances(s, w, LeaveSlot(w))
  {
    hide ClearDesktop;
  }

  lemma LeaveRegistryTurns(s: State, w: Socket)
    requires w in s.phase && s.phase[w].Unregistering? && s.lock.None?
    ensures Advances(s, w, LeaveRegistry(w))
  {
    hide Unregister;
  }

  lemma AnnounceTurns(s: State, w: Socket)
    requires w in s.phase && s.phase[w].Leaving?
    ensures Advances(s, w, Announce(w))
  {
    hide Notices;
  }

  lemma OwnTurns(s: State, w: Socket, rid: RequestId)
    requires w in s.phase && !InLoop(s.phase[w]) && !s.phase[w].Done? && rid !in s.asked
    requires s.phase[w].Rejecting? || s.lock.None?
    ensures Advances(s, w, NextStep(s.phase[w], w, rid))
  {
    hide Advances;
    match s.phase[w]
    case AwaitAuth => AuthFailsTurns(s, w);
    case PairStart => ReadSlotTurns(s, w);
    case PairStore(_) => StoreTurns(s, w, rid);
    case PairForward(_, _) => ForwardTurns(s, w);
    case PairAck(_) => AcknowledgeTurns(s, w);
    case PairWait(_) => TimeoutTurns(s, w);
    case PairExpired => CloseExpiredTurns(s, w);
    case Authed(_, _) => TryRegisterTurns(s, w);
    case Rejecting => FinishRejectTurns(s, w);
    case Joined(_, _) => EnterTurns(s, w);
    case Answering(_, _, _) => SendAnswerTurns(s, w);
    case ClosingSlot(_) => LeaveSlotTurns(s, w);
    case Unregistering(_, _) => LeaveRegistryTurns(s, w);
    case Leaving(_) => AnnounceTurns(s, w);
  }

  // Outside the message loop one step takes a handler nearer its end.
  lemma TurnOutside(steps: seq<Step>, w: Socket) returns (more: seq<Step>, p: Phase)
    requires Runs(steps) && w in After(steps).phase
    requires !InLoop(After(steps).phase[w]) && !After(steps).phase[w].Done?
    ensures Nearer(steps, w, more, p)
  {
    var q, free := After(steps).phase[w], [];
    assert steps + [] == steps;
    if !q.Rejecting? {
      free := FreeLock(steps, w);
    }
    var s := After(steps + free);
    var n := FreshId(s.asked.Keys);
    var rid := seq<char>(n, _ => 'r');
    assert rid !in s.asked;
    var step := NextStep(q, w, rid);
    hide Next, Enabled, Runs, After;
    OwnTurns(s, w, rid);
    hide InLoop, Rank, NextStep;
    Steps(steps + free, step);
    p := PhaseOf(Next(s, step), w);
    Then(steps, w, free, [step], p);
    more := free + [step];
  }

  lemma ClosingRank(id: DeviceId, role: Role)
    ensures Rank(Closing(id, role)) <= 3
  {
  }

  // The peer hangs up, and the message loop ends.
  lemma LeaveLoop(steps: seq<Step>, w: Socket) returns (more: seq<Step>, p: Phase)
    requires Runs(steps) && w in After(steps).phase && After(steps).phase[w].Open?
    ensures LeadsTo(steps, w, more, p)
    ensures var q := After(steps).phase[w];
            p == Closing(q.id, q.role)
  {
    var q := After(steps).phase[w];
    p := Closing(q.id, q.role);
    hide Closing;
    Do(steps, Hangup(w));
    Steps(steps, Hangup(w));
    Steps(steps + [Hangup(w)], EndOfStream(w));
    Then(steps, w, [Hangup(w)], [EndOfStream(w)], p);
    more := [Hangup(w)] + [EndOfStream(w)];
  }

  lemma TurnInLoop(steps: seq<Step>, w: Socket) returns (more: seq<Step>, p: Phase)
    requires Runs(steps) && w in After(steps).phase && InLoop(After(steps).phase[w])
    ensures Nearer(steps, w, more, p)
  {
    hide Closing, Runs, After, LeadsTo;
    var q := After(steps).phase[w];
    ClosingRank(q.id, q.role);
    if q.Relaying? {
      more, p := FinishRelaying(steps, w);
    } else if q.Sending? {
      more := FinishSending(steps, w);
      p := Open(q.id, q.role);
    } else {
      more, p := LeaveLoop(steps, w);
    }
  }

  // In every reachable state each handler can be brought to its end by its own
  // steps, with the end of a rejection at most in its way.
  lemma {:induction false} CanFinish(steps: seq<Step>, w: Socket) returns (more: seq<Step>)
    requires Runs(steps) && w in After(steps).phase
    ensures LeadsTo(steps, w, more, Done)
    decreases Rank(After(steps).phase[w])
  {
    var p := Done;
    if After(steps).phase[w].Done? {
      more := [];
      assert steps + [] == steps;
    } else {
      if InLoop(After(steps).phase[w]) {
        more, p := TurnInLoop(steps, w);
      } else {
        more, p := TurnOutside(steps, w);
      }
      hide Runs, After, InLoop, Rank;
      var rest := CanFinish(steps + more, w);
      Then(steps, w, more, rest, Done);
      more := more + rest;
    }
  }
}
