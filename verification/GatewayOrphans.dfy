// Pairing entries that outlive the handler that stored them: which steps leave
// one behind, over whole runs, and a run in which one takes a desktop down.
module GatewayOrphans {
  import opened Wrappers
  import opened Gateway
  import opened GatewayFrames
  import opened GatewayInvariant
  import opened GatewayDepartures
  import opened RelayLabels

  // The entry is still there, but its handler is done.
  predicate Orphaned(s: State, rid: RequestId) {
    rid in s.tables.pending && PhaseOf(s, s.tables.pending[rid]).Done?
  }

  // The handler of a pending request gives up: its desktop or its client is
  // gone, so that it never gets to the step that removes the entry.
  predicate Abandons(s: State, step: Step, rid: RequestId) {
    && rid in s.tables.pending && step.w == s.tables.pending[rid]
    && (|| step.ClientGone?
        || (step.Acknowledge? && step.w in s.closed)
        || (step.Forward? && step.w in s.phase && s.phase[step.w].PairForward?
            && s.phase[step.w].desktop in s.closed))
  }

  // ----- one step

  // An entry that stays keeps its socket; an entry that is new was just stored.
  lemma EntryStep(s: State, step: Step, rid: RequestId)
    requires Enabled(s, step)
    ensures var pending := Next(s, step).tables.pending;
            rid in pending ==>
              if rid in s.tables.pending && !(step.Store? && step.rid == rid) then pending[rid] == s.tables.pending[rid]
              else step.Store? && step.rid == rid && pending[rid] == step.w
    ensures rid in s.asked ==> rid in Next(s, step).asked
    ensures step.Store? && step.rid == rid ==> rid !in s.asked
  {
    if IsAside(step) {
      hide Next;
      AsideStep(s, step);
    } else {
      hide IsSnapshot, Hear, Route, Deliver, AnswerSent;
      match step
      case Store(w, r) =>
      case Timeout(w) =>
      case Receive(w, frame) => HearEntries(s, w, frame, rid);
      case SendAnswer(w) => AnswerEntries(s, w);
      case TakeSnapshot(w, to) => RelayKeepsTables(s, w, to); RouteAsked(s, w, to);
      case SendNext(w) => RelayKeepsTables(s, w, []); DeliverAsked(s, w);
    }
  }

  lemma HearEntries(s: State, w: Socket, frame: Frame, rid: RequestId)
    requires w in s.phase && s.phase[w].Open?
    ensures Hear(s, w, frame).asked == s.asked
    ensures rid in Hear(s, w, frame).tables.pending ==>
              rid in s.tables.pending && Hear(s, w, frame).tables.pending[rid] == s.tables.pending[rid]
  {
    hide Closing, Said, Claim, EndsReceiver;
    if frame.Object? && !EndsReceiver(s.phase[w].role, frame) && s.phase[w].role.Desktop? && frame.answer.Some? {
      ClaimEntries(s, w, frame.answer.value, rid);
    }
  }

  lemma ClaimEntries(s: State, w: Socket, answer: Answer, rid: RequestId)
    requires w in s.phase && s.phase[w].Open?
    ensures Claim(s, w, answer).asked == s.asked
    ensures rid in Claim(s, w, answer).tables.pending ==>
              rid in s.tables.pending && Claim(s, w, answer).tables.pending[rid] == s.tables.pending[rid]
  {
  }

  lemma AnswerEntries(s: State, w: Socket)
    requires w in s.phase && s.phase[w].Answering?
    ensures AnswerSent(s, w).asked == s.asked && AnswerSent(s, w).tables == s.tables
  {
  }

  lemma RouteAsked(s: State, w: Socket, to: Recipients)
    requires w in s.phase && s.phase[w].Relaying?
    ensures Route(s, w, to).asked == s.asked
  {
    hide Closing;
  }

  lemma DeliverAsked(s: State, w: Socket)
    requires w in s.phase && s.phase[w].Sending?
    ensures Deliver(s, w).asked == s.asked
  {
    hide Tried;
  }

  // What the asking handler's own step does to its entry.
  lemma OwnerStep(s: State, step: Step, rid: RequestId)
    requires Enabled(s, step) && rid in s.tables.pending && step.w == s.tables.pending[rid]
    requires step.w in s.phase && AskedFor(s.phase[step.w], rid)
    ensures Orphaned(Next(s, step), rid) <==> Abandons(s, step, rid)
  {
    OwnerSteps(s, step, rid);
    hide IsSnapshot, Enabled, Hear, Route, Deliver, AnswerSent, Registering, Entered, RegistryLeft, Notify, Closing;
  }

  lemma OwnerSteps(s: State, step: Step, rid: RequestId)
    requires Enabled(s, step) && step.w in s.phase && AskedFor(s.phase[step.w], rid)
    ensures step.Hangup? || step.Forward? || step.Acknowledge? || step.ClientGone? || step.Timeout?
    ensures step.Timeout? || step.ClientGone? ==> s.phase[step.w] == PairWait(rid)
    ensures step.Forward? ==> s.phase[step.w].PairForward?
    ensures step.Acknowledge? ==> s.phase[step.w] == PairAck(rid)
  {
    hide IsSnapshot;
  }

  // An entry whose handler is still pairing is orphaned by exactly those steps.
  lemma OrphanedStep(s: State, step: Step, rid: RequestId)
    requires Inv(s) && Enabled(s, step) && rid in s.tables.pending && !Orphaned(s, rid)
    ensures Orphaned(Next(s, step), rid) <==> Abandons(s, step, rid)
  {
    var w := s.tables.pending[rid];
    PendingHandler(s, rid);
    if step.w == w {
      hide Inv, Next, Enabled, Orphaned, Abandons;
      OwnerStep(s, step, rid);
    } else {
      hide Inv, Next, Enabled;
      EntryStep(s, step, rid);
      OthersStay(s, step, w);
    }
  }

  lemma PendingHandler(s: State, rid: RequestId)
    requires Inv(s) && rid in s.tables.pending
    ensures var w := s.tables.pending[rid];
            w in s.phase && (AskedFor(s.phase[w], rid) || Orphaned(s, rid)) && rid in s.asked
  {
    hide RegistryFits, SlotFits, LockFits;
  }

  // An orphaned entry that stays, stays orphaned.
  lemma OrphanStays(s: State, step: Step, rid: RequestId)
    requires Inv(s) && Enabled(s, step) && Orphaned(s, rid)
    ensures !Abandons(s, step, rid)
    ensures rid in Next(s, step).tables.pending ==> Orphaned(Next(s, step), rid)
  {
    var w := s.tables.pending[rid];
    PendingHandler(s, rid);
    EntryStep(s, step, rid);
    if step.w != w {
      hide Enabled, Next, Inv;
      OthersStay(s, step, w);
    } else {
      hide Inv;
      DoneOnlyHangsUp(s, step);
    }
  }

  lemma DoneOnlyHangsUp(s: State, step: Step)
    requires Enabled(s, step) && step.w in s.phase && s.phase[step.w].Done?
    ensures step.Hangup?
  {
    hide IsSnapshot;
  }

  // A request stored only now was given up by no earlier step.
  lemma StoredStep(s: State, step: Step, rid: RequestId)
    requires Inv(s) && Enabled(s, step) && step.Store? && step.rid == rid
    ensures rid !in s.asked && !Abandons(s, step, rid) && !Orphaned(Next(s, step), rid)
  {
    hide Inv;
  }

  lemma UnaskedStep(s: State, step: Step, rid: RequestId)
    requires Inv(s) && Enabled(s, step) && rid !in s.asked
    ensures !Abandons(s, step, rid)
  {
    hide RegistryFits, SlotFits, LockFits, Enabled;
  }

  // ----- over runs

  ghost predicate AbandonedAt(steps: seq<Step>, k: nat, rid: RequestId)
    requires k < |steps|
  {
    Runs(steps[..k]) && Abandons(After(steps[..k]), steps[k], rid)
  }

  ghost predicate Abandoned(steps: seq<Step>, rid: RequestId) {
    exists k :: 0 <= k < |steps| && AbandonedAt(steps, k, rid)
  }

  lemma AbandonedLater(steps: seq<Step>, rid: RequestId)
    requires steps != []
    ensures Abandoned(steps, rid) <==>
            Abandoned(steps[..|steps| - 1], rid) || AbandonedAt(steps, |steps| - 1, rid)
  {
    var before := steps[..|steps| - 1];
    forall k: nat | k < |before|
      ensures AbandonedAt(before, k, rid) <==> AbandonedAt(steps, k, rid)
    {
      assert before[..k] == steps[..k];
    }
    hide AbandonedAt;
  }

  lemma {:induction false} NeverAsked(steps: seq<Step>, rid: RequestId)
    requires Runs(steps) && rid !in After(steps).asked
    ensures !Abandoned(steps, rid)
  {
    if steps != [] {
      var before, step := steps[..|steps| - 1], steps[|steps| - 1];
      EntryStep(After(before), step, rid);
      NeverAsked(before, rid);
      AbandonedLater(steps, rid);
      ReachableInv(before);
      hide Abandoned;
      UnaskedStep(After(before), step, rid);
    }
  }

  // In every run, an entry still pending has outlived its handler if and only if
  // one of those steps gave it up.
  lemma {:induction false} OrphanedExactly(steps: seq<Step>, rid: RequestId)
    requires Runs(steps) && rid in After(steps).tables.pending
    ensures Orphaned(After(steps), rid) <==> Abandoned(steps, rid)
  {
    if steps == [] {
    } else {
      var before, step := steps[..|steps| - 1], steps[|steps| - 1];
      var s := After(before);
      AbandonedLater(steps, rid);
      ReachableInv(before);
      EntryStep(s, step, rid);
      hide Inv, Enabled, Next, Abandoned, Orphaned, Abandons;
      if step.Store? && step.rid == rid {
        StoredStep(s, step, rid);
        NeverAsked(before, rid);
      } else {
        OrphanedExactly(before, rid);
        if Orphaned(s, rid) {
          OrphanStays(s, step, rid);
        } else {
          OrphanedStep(s, step, rid);
        }
      }
    }
  }

  // ----- a pairing client that leaves takes the desktop with it

  // A desktop registers, a client asks for pairing through it and leaves, and
  // the desktop answers.
  function LateAnswer(payload: Payload): seq<Step> {
    [Connect(0), AuthPasses(0, "d", Desktop), TryRegister(0), Enter(0),
     Connect(1), BeginPairing(1), ReadSlot(1), Store(1, "r"), Forward(1), Acknowledge(1),
     Hangup(1), ClientGone(1),
     Receive(0, Object(Nobody, Some(Answer(Some("r"), true)), "", payload)), SendAnswer(0),
     LeaveSlot(0), LeaveRegistry(0)]
  }

  // Where that run has got to after 4, 6, 7, 8, 10, 12, 13 and 14 steps.
  function Served(): State {
    Start().(tables := Tables(map["d" := 0], map["d" := Desktop], Some(0), map[]),
             phase := map[0 := Open("d", Desktop)], outbox := [Notice(0)])
  }

  function Greeting(): State { Served().(phase := map[0 := Open("d", Desktop), 1 := PairStart]) }

  function Asking(): State { Served().(phase := map[0 := Open("d", Desktop), 1 := PairStore(0)]) }

  function Stored(): State {
    Asking().(tables := Served().tables.(pending := map["r" := 1]),
              phase := map[0 := Open("d", Desktop), 1 := PairForward("r", 0)],
              asked := map["r" := 1], outcome := map["r" := Pending])
  }

  function Waiting(): State {
    Stored().(outbox := [Notice(0), Asked(0, "r"), Notice(1)],
              phase := map[0 := Open("d", Desktop), 1 := PairWait("r")])
  }

  function Gone(): State {
    Waiting().(closed := {1}, phase := map[0 := Open("d", Desktop), 1 := Done])
  }

  function Answered(): State {
    Gone().(tables := Served().tables, outcome := map["r" := Claimed(0)],
            phase := map[0 := Answering("d", "r", 1), 1 := Done])
  }

  function Unwinding(): State {
    Answered().(outcome := map["r" := Lost], phase := map[0 := ClosingSlot("d"), 1 := Done])
  }

  lemma DesktopServed(payload: Payload)
    ensures Reaches(LateAnswer(payload)[..4], Served())
  {
    hide IsSnapshot, CloseAndEnd, TimedOut, Notify, Closing, Route, Deliver, SlotRead, RequestStored, RequestForwarded,
         RequestAcknowledged, Hear, AnswerSent, RegistryLeft;
    var run := LateAnswer(payload);
    var s1 := Next(Start(), run[0]);
    var s2 := Next(s1, run[1]);
    var s3 := Next(s2, run[2]);
    assert s3.phase == map[0 := Joined("d", Desktop)];
    assert Next(s3, run[3]) == Served();
    assert run[..0] == [];
    Extend(run, 0, Start());
    Extend(run, 1, s1);
    Extend(run, 2, s2);
    Extend(run, 3, s3);
  }

  lemma ClientConnects(payload: Payload)
    requires Reaches(LateAnswer(payload)[..4], Served())
    ensures Reaches(LateAnswer(payload)[..6], Greeting())
  {
    hide Reaches, IsSnapshot, CloseAndEnd, TimedOut, Notify, Closing, Route, Deliver, AuthPassed, Registering, Entered,
         SlotRead, RequestStored, RequestForwarded, RequestAcknowledged, Hear, AnswerSent, RegistryLeft;
    var run := LateAnswer(payload);
    var s5 := Next(Served(), run[4]);
    assert Next(s5, run[5]) == Greeting();
    Extend(run, 4, Served());
    Extend(run, 5, s5);
  }

  lemma ClientAsks(payload: Payload)
    requires Reaches(LateAnswer(payload)[..6], Greeting())
    ensures Reaches(LateAnswer(payload)[..7], Asking())
  {
    hide Reaches, IsSnapshot, CloseAndEnd, TimedOut, Notify, Closing, Route, Deliver, AuthPassed, Registering, Entered,
         RequestStored, RequestForwarded, RequestAcknowledged, Hear, AnswerSent, RegistryLeft;
    var run := LateAnswer(payload);
    assert Next(Greeting(), run[6]) == Asking();
    Extend(run, 6, Greeting());
  }

  lemma RequestPending(payload: Payload)
    requires Reaches(LateAnswer(payload)[..7], Asking())
    ensures Reaches(LateAnswer(payload)[..8], Stored())
  {
    hide Reaches, IsSnapshot, CloseAndEnd, TimedOut, Notify, Closing, Route, Deliver, AuthPassed, Registering, Entered,
         SlotRead, RequestForwarded, RequestAcknowledged, Hear, AnswerSent, RegistryLeft;
    var run := LateAnswer(payload);
    assert Next(Asking(), run[7]) == Stored();
    Extend(run, 7, Asking());
  }

  lemma ClientWaits(payload: Payload)
    requires Reaches(LateAnswer(payload)[..8], Stored())
    ensures Reaches(LateAnswer(payload)[..10], Waiting())
  {
    hide Reaches, IsSnapshot, CloseAndEnd, TimedOut, Notify, Closing, Route, Deliver, AuthPassed, Registering, Entered,
         SlotRead, RequestStored, Hear, AnswerSent, RegistryLeft;
    var run := LateAnswer(payload);
    var s9 := Next(Stored(), run[8]);
    assert Next(s9, run[9]) == Waiting();
    Extend(run, 8, Stored());
    Extend(run, 9, s9);
  }

  // Twelve steps in, the request has outlived its handler.
  lemma OrphanWitness(payload: Payload)
    ensures Reaches(LateAnswer(payload)[..12], Gone()) && Orphaned(Gone(), "r")
  {
    hide Reaches, IsSnapshot, CloseAndEnd, TimedOut, Notify, Closing, Route, Deliver, AuthPassed, Registering, Entered,
         SlotRead, RequestStored, RequestForwarded, RequestAcknowledged, Hear, AnswerSent, RegistryLeft;
    DesktopServed(payload);
    ClientConnects(payload);
    ClientAsks(payload);
    RequestPending(payload);
    ClientWaits(payload);
    var run := LateAnswer(payload);
    var s11 := Next(Waiting(), run[10]);
    assert Next(s11, run[11]) == Gone();
    Extend(run, 10, Waiting());
    Extend(run, 11, s11);
  }

  lemma AnswerHeard(payload: Payload)
    requires Reaches(LateAnswer(payload)[..12], Gone())
    ensures Reaches(LateAnswer(payload)[..13], Answered())
  {
    hide Reaches, IsSnapshot, CloseAndEnd, TimedOut, Notify, Closing, Route, Deliver, AuthPassed, Registering, Entered,
         SlotRead, RequestStored, RequestForwarded, RequestAcknowledged, RegistryLeft, AnswerSent, LabelsRaise;
    var run := LateAnswer(payload);
    assert Next(Gone(), run[12]) == Answered();
    Extend(run, 12, Gone());
  }

  lemma AnswerFails(payload: Payload)
    requires Reaches(LateAnswer(payload)[..13], Answered())
    ensures Reaches(LateAnswer(payload)[..14], Unwinding())
  {
    hide Reaches, IsSnapshot, CloseAndEnd, TimedOut, Notify, Closing, Route, Deliver, AuthPassed, Registering, Entered,
         SlotRead, RequestStored, RequestForwarded, RequestAcknowledged, RegistryLeft, Hear;
    var run := LateAnswer(payload);
    assert Next(Answered(), run[13]) == Unwinding();
    Extend(run, 13, Answered());
  }

  // Four more, and the desktop, which never hung up, is out of the registry and
  // the slot.
  lemma LateAnswerWitness(payload: Payload)
    ensures Runs(LateAnswer(payload))
    ensures var s := After(LateAnswer(payload));
            0 !in s.closed && "d" !in s.tables.registry && s.tables.slot.None?
  {
    hide Runs, After, IsSnapshot, CloseAndEnd, TimedOut, Notify, Closing, Route, Deliver, AuthPassed, Registering,
         Entered, SlotRead, RequestStored, RequestForwarded, RequestAcknowledged, Hear, AnswerSent, Orphaned;
    OrphanWitness(payload);
    AnswerHeard(payload);
    AnswerFails(payload);
    var run := LateAnswer(payload);
    var s15 := Next(Unwinding(), run[14]);
    Extend(run, 14, Unwinding());
    Extend(run, 15, s15);
    assert run[..16] == run;
  }
}
