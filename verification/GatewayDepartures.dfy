// What ends a registered handler's session, and what leaves a pairing entry
// behind: exactly which steps, over whole runs, and runs that show it.
module GatewayDepartures {
  import opened Gateway
  import opened GatewayFrames
  import opened JsonValues
  import opened RelayLabels
  import opened Wrappers

  // Registered, and still serving its peer.
  predicate InSession(p: Phase) {
    p.Joined? || p.Open? || p.Answering? || p.Relaying? || p.Sending?
  }

  // Past the message loop.
  predicate Departing(p: Phase) {
    p.ClosingSlot? || p.Unregistering? || p.Leaving? || p.Done?
  }

  // The steps that end the handler's message loop: its peer is gone, its peer
  // sent a frame that cannot be read, is no object, whose labels for the log
  // cannot be computed or whose target cannot be a key, or it answers a pairing
  // client that has left.
  predicate EndsSession(s: State, step: Step)
    requires step.w in s.phase
  {
    var p := s.phase[step.w];
    || step.EndOfStream?
    || (step.Receive? && p.Open? && EndsReceiver(p.role, step.frame))
    || (step.TakeSnapshot? && p.Relaying? && p.target.Unhashable?)
    || (step.SendAnswer? && p.Answering? && p.to in s.closed)
  }

  // A handler that was never started counts as done.
  function PhaseOf(s: State, w: Socket): Phase {
    if w in s.phase then s.phase[w] else Done
  }

  predicate Serving(s: State, w: Socket) { w in s.phase && InSession(s.phase[w]) }

  // ----- one step

  lemma HearMoves(s: State, w: Socket, frame: Frame)
    requires w in s.phase && s.phase[w].Open?
    ensures Hear(s, w, frame).phase == s.phase[w := PhaseOf(Hear(s, w, frame), w)]
    ensures var p := PhaseOf(Hear(s, w, frame), w);
            (InSession(p) || Departing(p)) && (Departing(p) <==> EndsReceiver(s.phase[w].role, frame))
  {
    hide Said, EndsReceiver;
    assert s.phase[w := s.phase[w]] == s.phase;
  }

  lemma RouteMoves(s: State, w: Socket, to: Recipients)
    requires w in s.phase && s.phase[w].Relaying?
    ensures Route(s, w, to).phase == s.phase[w := PhaseOf(Route(s, w, to), w)]
    ensures var p := PhaseOf(Route(s, w, to), w);
            (InSession(p) || Departing(p)) && (Departing(p) <==> s.phase[w].target.Unhashable?)
  {
    ClosingDeparts(s.phase[w].id, s.phase[w].role);
    hide Closing;
  }

  lemma DeliverMoves(s: State, w: Socket)
    requires w in s.phase && s.phase[w].Sending?
    ensures Deliver(s, w).phase == s.phase[w := PhaseOf(Deliver(s, w), w)] && InSession(PhaseOf(Deliver(s, w), w))
  {
    hide Tried;
  }

  lemma AnswerMoves(s: State, w: Socket)
    requires w in s.phase && s.phase[w].Answering?
    ensures AnswerSent(s, w).phase == s.phase[w := PhaseOf(AnswerSent(s, w), w)]
    ensures var p := PhaseOf(AnswerSent(s, w), w);
            (InSession(p) || Departing(p)) && (Departing(p) <==> s.phase[w].to in s.closed)
  {
  }

  lemma PairingMoves(s: State, step: Step)
    requires Enabled(s, step) && (step.Store? || step.Timeout?)
    ensures Next(s, step).phase == s.phase[step.w := PhaseOf(Next(s, step), step.w)]
  {
  }

  // A step moves its own handler only.
  lemma OthersStay(s: State, step: Step, v: Socket)
    requires Enabled(s, step) && v in s.phase && step.w != v
    ensures v in Next(s, step).phase && Next(s, step).phase[v] == s.phase[v]
  {
    if IsAside(step) {
      hide Enabled, Next, IsAside, SameBooks;
      AsideStep(s, step);
    } else if step.Store? || step.Timeout? {
      hide Enabled, Next;
      PairingMoves(s, step);
    } else {
      hide IsSnapshot, Hear, Route, Deliver, AnswerSent;
      match step
      case Receive(w, frame) => HearMoves(s, w, frame);
      case SendAnswer(w) => AnswerMoves(s, w);
      case TakeSnapshot(w, to) => RouteMoves(s, w, to);
      case SendNext(w) => DeliverMoves(s, w);
    }
  }

  lemma AsideInSession(s: State, step: Step)
    requires Enabled(s, step) && IsAside(step) && step.w in s.phase && InSession(s.phase[step.w])
    ensures step.Hangup? || step.EndOfStream? || (step.Enter? && s.phase[step.w].Joined?)
    ensures step.EndOfStream? ==> s.phase[step.w].Open?
  {
    hide IsSnapshot;
  }

  lemma EnteredMoves(s: State, w: Socket)
    requires w in s.phase && s.phase[w].Joined?
    ensures w in Entered(s, w).phase && InSession(Entered(s, w).phase[w])
  {
    hide Notices;
  }

  lemma ClosingDeparts(id: DeviceId, role: Role)
    ensures Departing(Closing(id, role)) && !InSession(Closing(id, role))
  {
  }

  lemma AsideOwnStep(s: State, step: Step)
    requires Enabled(s, step) && IsAside(step) && step.w in s.phase && InSession(s.phase[step.w])
    ensures step.w in Next(s, step).phase
    ensures var p := PhaseOf(Next(s, step), step.w);
            (InSession(p) || Departing(p)) && (Departing(p) <==> step.EndOfStream?)
  {
    var w := step.w;
    AsideInSession(s, step);
    hide Enabled;
    if step.Enter? {
      EnteredMoves(s, w);
      hide Entered;
    } else if step.EndOfStream? {
      ClosingDeparts(s.phase[w].id, s.phase[w].role);
      hide Closing;
    }
  }

  // A session goes on or ends, and ends exactly at one of those steps.
  lemma OwnStep(s: State, step: Step)
    requires Enabled(s, step) && step.w in s.phase && InSession(s.phase[step.w])
    ensures step.w in Next(s, step).phase
    ensures var p := PhaseOf(Next(s, step), step.w);
            (InSession(p) || Departing(p)) && (Departing(p) <==> EndsSession(s, step))
  {
    if IsAside(step) {
      hide Next;
      AsideOwnStep(s, step);
    } else {
      hide IsSnapshot, Hear, Route, Deliver, AnswerSent, InSession, Departing;
      match step
      case Receive(w, frame) => HearMoves(s, w, frame);
      case SendAnswer(w) => AnswerMoves(s, w);
      case TakeSnapshot(w, to) => RouteMoves(s, w, to);
      case SendNext(w) => DeliverMoves(s, w); NeverBoth(PhaseOf(Deliver(s, w), w));
      case _ => assert false by { SessionIsNotPairing(s, step); }
    }
  }

  lemma NeverBoth(p: Phase)
    ensures !(InSession(p) && Departing(p))
  {
  }

  lemma SessionIsNotPairing(s: State, step: Step)
    requires Enabled(s, step) && (step.Store? || step.Timeout?)
    ensures step.w in s.phase && !InSession(s.phase[step.w])
  {
  }

  // A handler still in its session does not unregister.
  lemma StillServing(s: State, step: Step, w: Socket)
    requires Enabled(s, step) && Serving(s, w)
    ensures step.LeaveRegistry? ==> step.w != w
  {
    hide IsSnapshot;
  }

  lemma DepartingStep(s: State, step: Step)
    requires Enabled(s, step) && step.w in s.phase && Departing(s.phase[step.w])
    ensures step.w in Next(s, step).phase && Departing(PhaseOf(Next(s, step), step.w))
  {
    hide IsSnapshot, Tried, Said, Notices, Hear, Route, Deliver;
  }

  // Any step, seen from a handler that is or was in a session.
  lemma StageStep(s: State, step: Step, w: Socket)
    requires Enabled(s, step) && w in s.phase && (InSession(s.phase[w]) || Departing(s.phase[w]))
    ensures w in Next(s, step).phase
    ensures var p := PhaseOf(Next(s, step), w);
            && (InSession(p) || Departing(p))
            && (Departing(p) <==> Departing(s.phase[w]) || (step.w == w && EndsSession(s, step)))
  {
    hide Enabled, Next, EndsSession;
    if step.w != w {
      OthersStay(s, step, w);
    } else if InSession(s.phase[w]) {
      OwnStep(s, step);
    } else {
      DepartingStep(s, step);
    }
  }

  // ----- over runs

  // The session of w ends at step k.
  ghost predicate EndsAt(steps: seq<Step>, k: nat, w: Socket)
    requires k < |steps|
  {
    && Runs(steps[..k]) && steps[k].w == w && w in After(steps[..k]).phase
    && EndsSession(After(steps[..k]), steps[k])
  }

  ghost predicate EndedSince(steps: seq<Step>, from: nat, w: Socket) {
    exists k :: from <= k < |steps| && EndsAt(steps, k, w)
  }

  lemma EndedLater(steps: seq<Step>, from: nat, w: Socket)
    requires from < |steps|
    ensures EndedSince(steps, from, w) <==>
            EndedSince(steps[..|steps| - 1], from, w) || EndsAt(steps, |steps| - 1, w)
  {
    var before := steps[..|steps| - 1];
    forall k: nat | k < |before|
      ensures EndsAt(before, k, w) <==> EndsAt(steps, k, w)
    {
      assert before[..k] == steps[..k];
    }
    hide EndsAt;
  }

  lemma {:induction false} PrefixRuns(steps: seq<Step>, k: nat)
    requires Runs(steps) && k <= |steps|
    ensures Runs(steps[..k])
  {
    if k == |steps| {
      assert steps[..k] == steps;
    } else {
      PrefixRuns(steps[..|steps| - 1], k);
      assert steps[..|steps| - 1][..k] == steps[..k];
    }
  }

  // A session lasts exactly until one of the steps that end it: whatever other
  // handlers do, it goes on, and once ended it never comes back.
  lemma {:induction false} SessionLastsExactly(steps: seq<Step>, from: nat, w: Socket)
    requires Runs(steps) && from <= |steps|
    ensures Runs(steps[..from])
    ensures Serving(After(steps[..from]), w) ==>
              var p := PhaseOf(After(steps), w);
              && w in After(steps).phase && (InSession(p) || Departing(p))
              && (Departing(p) <==> EndedSince(steps, from, w))
    decreases |steps|
  {
    PrefixRuns(steps, from);
    if from == |steps| {
      assert steps[..from] == steps;
    } else {
      var before, step := steps[..|steps| - 1], steps[|steps| - 1];
      SessionLastsExactly(before, from, w);
      assert before[..from] == steps[..from];
      EndedLater(steps, from, w);
      var s := After(before);
      hide Enabled, Next, EndsSession, EndedSince, InSession, Departing;
      if Serving(After(steps[..from]), w) {
        StageStep(s, step, w);
      }
    }
  }

  // ----- labels for the log end a session

  ghost predicate Reaches(steps: seq<Step>, s: State) { Runs(steps) && After(steps) == s }

  // The run whose first k steps reached s goes on.
  lemma Extend(steps: seq<Step>, k: nat, s: State)
    requires k < |steps| && Reaches(steps[..k], s) && Enabled(s, steps[k])
    ensures Reaches(steps[..k + 1], Next(s, steps[k]))
  {
    assert steps[..k + 1][..k] == steps[..k];
    hide Next, Enabled;
  }

  // What {"payload": {"message_type": "message", "content": 5}} carries.
  function NumberAsContent(read: string -> Reading): Payload {
    Payload(Obj(map["message_type" := Str("message"), "content" := Num(5.0)]), read)
  }

  lemma LabelsOfNumber(read: string -> Reading, fromServer: bool, unhashable: bool)
    ensures LabelsRaise(NumberAsContent(read), fromServer, unhashable)
  {
  }

  // A device registers and broadcasts such a message.
  function UnlabelledMessage(body: Body, payload: Payload): seq<Step> {
    [Connect(0), AuthPasses(0, "d", Device), TryRegister(0), Enter(0),
     Receive(0, Object(Broadcast, None, body, payload)), LeaveRegistry(0)]
  }

  lemma DeviceServed(body: Body, payload: Payload)
    ensures Reaches(UnlabelledMessage(body, payload)[..4], ServedDevice())
  {
    hide IsSnapshot, CloseAndEnd, TimedOut, Closing, Route, Deliver, SlotRead, RequestStored, RequestForwarded,
         RequestAcknowledged, Hear, AnswerSent, RegistryLeft;
    var run := UnlabelledMessage(body, payload);
    var s1 := Next(Start(), run[0]);
    var s2 := Next(s1, run[1]);
    var s3 := Next(s2, run[2]);
    assert s3.phase == map[0 := Joined("d", Device)];
    assert Next(s3, run[3]) == ServedDevice();
    assert run[..0] == [];
    Extend(run, 0, Start());
    Extend(run, 1, s1);
    Extend(run, 2, s2);
    Extend(run, 3, s3);
  }

  function ServedDevice(): State {
    Start().(tables := Tables(map["d" := 0], map["d" := Device], None, map[]),
             phase := map[0 := Open("d", Device)], outbox := [Notice(0)])
  }

  // The message is never heard, and the device, which never hung up, is out of
  // the registry.
  lemma UnlabelledMessageWitness(body: Body, read: string -> Reading)
    ensures var run := UnlabelledMessage(body, NumberAsContent(read));
            && Runs(run)
            && 0 !in After(run).closed && "d" !in After(run).tables.registry && After(run).heard == map[]
  {
    hide IsSnapshot, CloseAndEnd, TimedOut, Route, Deliver, SlotRead, RequestStored, RequestForwarded,
         RequestAcknowledged, AnswerSent, Claim, Runs, After;
    var payload := NumberAsContent(read);
    var run := UnlabelledMessage(body, payload);
    DeviceServed(body, payload);
    LabelsOfNumber(read, false, false);
    hide LabelsRaise, NumberAsContent;
    var s5 := Next(ServedDevice(), run[4]);
    assert s5 == ServedDevice().(phase := map[0 := Unregistering("d", Device)]);
    Extend(run, 4, ServedDevice());
    Extend(run, 5, s5);
    assert run[..6] == run;
  }
}
