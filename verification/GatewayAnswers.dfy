// Pairing by the history of a run alone: who asked, whether the request still
// waits, which answer a desktop has picked up, and where each answer went.
module GatewayAnswers {
  import opened Wrappers
  import opened Gateway
  import opened GatewayFrames
  import opened GatewayInvariant
  import opened GatewayPairing
  import opened GatewayDepartures
  import opened GatewayHistory

  // Who asked, by the steps.
  function Asker(steps: seq<Step>, rid: RequestId): Option<Socket> {
    if steps == [] then None
    else
      var before, step := steps[..|steps| - 1], steps[|steps| - 1];
      if step.Store? && step.rid == rid then Some(step.w) else Asker(before, rid)
  }

  // The desktop's frame answers this request with a status that is known.
  predicate AnswersRequest(before: seq<Step>, step: Step, rid: RequestId) {
    && step.Receive? && Identity(before, step.w).Some? && Identity(before, step.w).value.role.Desktop?
    && step.frame.Object? && step.frame.answer == Some(Answer(Some(rid), true))
  }

  // Who still waits for the answer: asked, not timed out and not picked up.
  function Awaiting(steps: seq<Step>, rid: RequestId): Option<Socket> {
    if steps == [] then None
    else
      var before, step := steps[..|steps| - 1], steps[|steps| - 1];
      if step.Store? && step.rid == rid then Some(step.w)
      else if step.Timeout? && Awaiting(before, rid) == Some(step.w) then None
      else if AnswersRequest(before, step, rid) then None
      else Awaiting(before, rid)
  }

  // The request whose answer this handler has picked up and not yet sent on.
  function Picked(steps: seq<Step>, w: Socket): Option<RequestId> {
    if steps == [] then None
    else
      var before, step := steps[..|steps| - 1], steps[|steps| - 1];
      if step.w != w then Picked(before, w)
      else if step.SendAnswer? then None
      else if step.Receive? && step.frame.Object? && step.frame.answer.Some? && step.frame.answer.value.rid.Some?
              && AnswersRequest(before, step, step.frame.answer.value.rid.value)
              && Awaiting(before, step.frame.answer.value.rid.value).Some?
      then step.frame.answer.value.rid
      else Picked(before, w)
  }

  // ----- who asked

  lemma AskedStep(s: State, step: Step)
    requires Enabled(s, step)
    ensures Next(s, step).asked == if step.Store? then s.asked[step.rid := step.w] else s.asked
  {
    if IsAside(step) {
      hide Enabled, Next, IsAside, OnlyMoves;
      AsideStep(s, step);
    } else if step.Receive? || step.TakeSnapshot? || step.SendNext? {
      hide IsSnapshot, Hear, Route, Deliver;
      match step
      case Receive(w, frame) => HearAsked(s, w, frame);
      case TakeSnapshot(w, to) => RouteKeepsOutcome(s, w, to);
      case SendNext(w) => DeliverAsked(s, w);
    } else {
      hide PopRequest, StoreRequest;
    }
  }

  lemma HearAsked(s: State, w: Socket, frame: Frame)
    requires w in s.phase && s.phase[w].Open?
    ensures Hear(s, w, frame).asked == s.asked
  {
    hide Closing, Said, EndsReceiver, PopRequest;
  }

  lemma DeliverAsked(s: State, w: Socket)
    requires w in s.phase && s.phase[w].Sending?
    ensures Deliver(s, w).asked == s.asked
  {
    hide Tried;
  }

  lemma {:induction false} AskedIsAsker(steps: seq<Step>, rid: RequestId)
    requires Runs(steps)
    ensures Lookup(After(steps).asked, rid) == Asker(steps, rid)
  {
    if steps != [] {
      var before, step := steps[..|steps| - 1], steps[|steps| - 1];
      AskedIsAsker(before, rid);
      hide Enabled, Next;
      AskedStep(After(before), step);
    }
  }

  // ----- who still waits

  // The answer a frame carries for a handler in this phase, if it counts.
  function AnswerIn(p: Phase, frame: Frame): Option<RequestId> {
    if p.Open? && p.role.Desktop? && frame.Object? && frame.answer.Some? && frame.answer.value.statusKnown
    then frame.answer.value.rid else None
  }

  lemma ClaimPicks(s: State, w: Socket, answer: Answer)
    requires w in s.phase && s.phase[w].Open?
    ensures var rid := if answer.statusKnown then answer.rid else None;
            Claim(s, w, answer).tables.pending == if rid.Some? then s.tables.pending - {rid.value} else s.tables.pending
    ensures answer.statusKnown && answer.rid.Some? && answer.rid.value in s.tables.pending ==>
              PhaseOf(Claim(s, w, answer), w) ==
              Answering(s.phase[w].id, answer.rid.value, s.tables.pending[answer.rid.value])
    ensures !(answer.statusKnown && answer.rid.Some? && answer.rid.value in s.tables.pending) ==>
              Claim(s, w, answer) == s
  {
    if answer.statusKnown && answer.rid.Some? && answer.rid.value !in s.tables.pending {
      assert s.tables.pending - {answer.rid.value} == s.tables.pending;
    }
  }

  lemma HearPicks(s: State, w: Socket, frame: Frame)
    requires w in s.phase && s.phase[w].Open?
    ensures var rid := AnswerIn(s.phase[w], frame);
            && Hear(s, w, frame).tables.pending ==
               (if rid.Some? then s.tables.pending - {rid.value} else s.tables.pending)
            && (rid.Some? && rid.value in s.tables.pending ==>
                  PhaseOf(Hear(s, w, frame), w) == Answering(s.phase[w].id, rid.value, s.tables.pending[rid.value]))
            && (PhaseOf(Hear(s, w, frame), w).Answering? ==> rid.Some? && rid.value in s.tables.pending)
  {
    ClosingIsWho(s.phase[w].id, s.phase[w].role);
    assert !Closing(s.phase[w].id, s.phase[w].role).Answering?;
    hide Closing, Said, Claim;
    if frame.Object? && s.phase[w].role.Desktop? && frame.answer.Some? {
      ClaimPicks(s, w, frame.answer.value);
    } else {
      hide EndsReceiver;
    }
  }

  // A handler's only entry is that of the request it waits for.
  lemma OnlyEntry(s: State, w: Socket, rid: RequestId)
    requires Inv(s) && w in s.phase && s.phase[w].PairWait?
    ensures Lookup(s.tables.pending, rid) == Some(w) <==> rid == s.phase[w].rid && rid in s.tables.pending
  {
    hide RegistryFits, SlotFits, LockFits;
    assert AskedFor(s.phase[w], s.phase[w].rid);
  }

  lemma TimeoutDrops(s: State, w: Socket, rid: RequestId)
    requires Inv(s) && w in s.phase && s.phase[w].PairWait?
    ensures Lookup(TimedOut(s, w).tables.pending, rid) ==
            if Lookup(s.tables.pending, rid) == Some(w) then None else Lookup(s.tables.pending, rid)
  {
    OnlyEntry(s, w, rid);
    hide Inv;
  }

  lemma PendingStep(s: State, step: Step, rid: RequestId)
    requires Inv(s) && Enabled(s, step)
    ensures Lookup(Next(s, step).tables.pending, rid) ==
            if step.Store? && step.rid == rid then Some(step.w)
            else if step.Timeout? && Lookup(s.tables.pending, rid) == Some(step.w) then None
            else if step.Receive? && AnswerIn(s.phase[step.w], step.frame) == Some(rid) then None
            else Lookup(s.tables.pending, rid)
  {
    hide Inv;
    if IsAside(step) {
      hide Enabled, Next, IsAside, OnlyMoves, Lookup, AnswerIn;
      AsideStep(s, step);
    } else {
      hide IsSnapshot, Hear, Route, Deliver, AnswerSent, TimedOut, AnswerIn;
      match step
      case Store(w, r) =>
      case Timeout(w) => TimeoutDrops(s, w, rid);
      case Receive(w, frame) => HearPicks(s, w, frame);
      case SendAnswer(w) => PairingKeepsRegistry(s, w, "");
      case TakeSnapshot(w, to) => RelayKeepsTables(s, w, to);
      case SendNext(w) => RelayKeepsTables(s, w, []);
    }
  }

  // A frame counts as an answer by who received it.
  lemma AnswerByWho(before: seq<Step>, step: Step, rid: RequestId)
    requires Runs(before) && Enabled(After(before), step) && step.Receive?
    ensures AnswersRequest(before, step, rid) <==> AnswerIn(After(before).phase[step.w], step.frame) == Some(rid)
  {
    ReceiverIsWho(before, step);
    hide After, Runs, Identity;
  }

  // In every run the requests that are stored are those that still wait.
  lemma {:induction false} PendingIsAwaiting(steps: seq<Step>, rid: RequestId)
    requires Runs(steps)
    ensures Lookup(After(steps).tables.pending, rid) == Awaiting(steps, rid)
  {
    if steps != [] {
      var before, step := steps[..|steps| - 1], steps[|steps| - 1];
      PendingIsAwaiting(before, rid);
      ReachableInv(before);
      PendingStep(After(before), step, rid);
      if step.Receive? {
        AnswerByWho(before, step, rid);
      }
      hide Inv, Enabled, Next, Lookup, AnswersRequest, AnswerIn;
    }
  }

  // ----- the answer a handler is about to send on

  function PickedIn(p: Phase): Option<RequestId> {
    if p.Answering? then Some(p.rid) else None
  }

  lemma RelayPicksNothing(s: State, step: Step)
    requires Enabled(s, step) && (step.Store? || step.Timeout? || step.TakeSnapshot? || step.SendNext?)
    ensures PickedIn(PhaseOf(s, step.w)) == None && PickedIn(PhaseOf(Next(s, step), step.w)) == None
  {
    hide IsSnapshot, Route, Deliver, RequestStored, TimedOut;
    match step
    case Store(w, rid) => RequestIsNameless(s, w, rid);
    case Timeout(w) => RequestIsNameless(s, w, "");
    case TakeSnapshot(w, to) => GatewayPairing.RouteMoves(s, w, to);
    case SendNext(w) => DeliverPicksNothing(s, w);
  }

  lemma DeliverPicksNothing(s: State, w: Socket)
    requires w in s.phase && s.phase[w].Sending?
    ensures !PhaseOf(Deliver(s, w), w).Answering?
  {
    hide Tried;
  }

  lemma SentPicksNothing(s: State, w: Socket)
    requires w in s.phase && s.phase[w].Answering?
    ensures !PhaseOf(AnswerSent(s, w), w).Answering?
  {
  }

  lemma PickedStep(s: State, step: Step)
    requires Enabled(s, step)
    ensures PickedIn(PhaseOf(Next(s, step), step.w)) ==
            if step.SendAnswer? then None
            else if step.Receive? then
              var rid := AnswerIn(s.phase[step.w], step.frame);
              if rid.Some? && rid.value in s.tables.pending then rid else None
            else PickedIn(PhaseOf(s, step.w))
  {
    if IsAside(step) {
      hide Enabled, Next, IsAside, SameBooks;
      AsideStep(s, step);
    } else if step.Receive? || step.SendAnswer? {
      hide Hear, AnswerSent, AnswerIn, IsSnapshot;
      match step
      case Receive(w, frame) => HearPicks(s, w, frame);
      case SendAnswer(w) => SentPicksNothing(s, w);
    } else {
      hide Enabled, Next;
      RelayPicksNothing(s, step);
    }
  }

  // In every run a handler is sending on exactly the answer it has picked up.
  lemma {:induction false} AnsweringIsPicked(steps: seq<Step>, w: Socket)
    requires Runs(steps)
    ensures PickedIn(PhaseOf(After(steps), w)) == Picked(steps, w)
  {
    if steps != [] {
      var before, step := steps[..|steps| - 1], steps[|steps| - 1];
      AnsweringIsPicked(before, w);
      if step.w != w {
        hide Enabled, Next, PickedIn;
        NothingElseMoves(After(before), step, w);
      } else {
        PickedStep(After(before), step);
        if step.Receive? {
          ReceiverPicks(before, step);
        }
        hide Next, PickedIn, AnswersRequest, AnswerIn, Awaiting;
      }
    }
  }

  lemma ReceiverPicks(before: seq<Step>, step: Step)
    requires Runs(before) && Enabled(After(before), step) && step.Receive?
    ensures var s := After(before);
            var rid := AnswerIn(s.phase[step.w], step.frame);
            && PickedIn(s.phase[step.w]) == None
            && Picked(before + [step], step.w) ==
               (if rid.Some? && rid.value in s.tables.pending then rid else Picked(before, step.w))
  {
    hide After, Runs, Awaiting, AnswersRequest, Next;
    var steps := before + [step];
    assert steps[..|steps| - 1] == before && steps[|steps| - 1] == step;
    if step.frame.Object? && step.frame.answer.Some? && step.frame.answer.value.rid.Some? {
      AnswerByWho(before, step, step.frame.answer.value.rid.value);
      PendingIsAwaiting(before, step.frame.answer.value.rid.value);
    }
  }

  // ----- where the answers go

  // Who is sent a response to this request: whoever asked, when the handler that
  // picked up the answer sends it on and the asker's socket is not closed.
  ghost function RepliesDue(steps: seq<Step>, rid: RequestId): seq<Socket>
    requires Runs(steps)
  {
    if steps == [] then []
    else
      var before, step := steps[..|steps| - 1], steps[|steps| - 1];
      var asker := Asker(before, rid);
      if step.SendAnswer? && Picked(before, step.w) == Some(rid) && asker.Some?
         && asker.value !in After(before).closed then RepliesDue(before, rid) + [asker.value]
      else RepliesDue(before, rid)
  }

  lemma ReplyAdded(outbox: seq<Sent>, m: Sent, rid: RequestId)
    ensures RepliesTo(outbox + [m], rid) ==
            if m.Replied? && m.rid == rid then RepliesTo(outbox, rid) + [m.to] else RepliesTo(outbox, rid)
  {
    assert (outbox + [m])[..|outbox|] == outbox;
  }

  lemma QuietReplies(o: seq<Sent>, o': seq<Sent>, rid: RequestId)
    requires Quiet(o, o')
    ensures RepliesTo(o', rid) == RepliesTo(o, rid)
  {
    if o' != o {
      assert o' == o + [o'[|o|]];
      ReplyAdded(o, o'[|o|], rid);
      hide RepliesTo;
    }
  }

  lemma AnswerReplies(s: State, w: Socket, rid: RequestId)
    requires w in s.phase && s.phase[w].Answering?
    ensures RepliesTo(AnswerSent(s, w).outbox, rid) ==
            if s.phase[w].rid == rid && s.phase[w].to !in s.closed then RepliesTo(s.outbox, rid) + [s.phase[w].to]
            else RepliesTo(s.outbox, rid)
  {
    ReplyAdded(s.outbox, Replied(s.phase[w].to, s.phase[w].rid), rid);
    hide RepliesTo;
  }

  lemma DeliverReplies(s: State, w: Socket, rid: RequestId)
    requires w in s.phase && s.phase[w].Sending?
    ensures RepliesTo(Deliver(s, w).outbox, rid) == RepliesTo(s.outbox, rid)
  {
    var Sending(id, role, index, body, rest) := s.phase[w];
    if rest != [] {
      ReplyAdded(s.outbox, Relayed(rest[0].1, id, index, body), rid);
    }
    assert s.outbox + [] == s.outbox;
    hide RepliesTo, Tried;
  }

  lemma HearReplies(s: State, w: Socket, frame: Frame)
    requires w in s.phase && s.phase[w].Open?
    ensures Hear(s, w, frame).outbox == s.outbox
  {
    hide Closing, Said, EndsReceiver, PopRequest;
  }

  lemma RepliesStep(s: State, step: Step, rid: RequestId)
    requires Enabled(s, step)
    ensures RepliesTo(Next(s, step).outbox, rid) ==
            if step.SendAnswer? && s.phase[step.w].rid == rid && s.phase[step.w].to !in s.closed
            then RepliesTo(s.outbox, rid) + [s.phase[step.w].to]
            else RepliesTo(s.outbox, rid)
  {
    hide RepliesTo;
    if IsAside(step) {
      AsideStep(s, step);
      QuietReplies(s.outbox, Next(s, step).outbox, rid);
      hide Enabled, Next, IsAside, OnlyMoves;
    } else if step.Store? || step.Timeout? {
      hide PopRequest, StoreRequest;
    } else {
      hide IsSnapshot, Hear, Route, Deliver, AnswerSent;
      match step
      case Receive(w, frame) => HearReplies(s, w, frame);
      case SendAnswer(w) => AnswerReplies(s, w, rid);
      case TakeSnapshot(w, to) => RouteKeepsOutcome(s, w, to);
      case SendNext(w) => DeliverReplies(s, w, rid);
    }
  }

  // The picked answer is for the socket that asked.
  lemma PickedIsForAsker(before: seq<Step>, w: Socket)
    requires Runs(before) && w in After(before).phase && After(before).phase[w].Answering?
    ensures var p := After(before).phase[w];
            Picked(before, w) == Some(p.rid) && Asker(before, p.rid) == Some(p.to)
  {
    AnsweringIsPicked(before, w);
    ReachablePairs(before);
    AskedIsAsker(before, After(before).phase[w].rid);
    hide Picked, Asker, After, Runs, RepliesFit;
  }

  // In every run the responses to a request are those due, in order.
  lemma {:induction false} RepliesAreDue(steps: seq<Step>, rid: RequestId)
    requires Runs(steps)
    ensures RepliesTo(After(steps).outbox, rid) == RepliesDue(steps, rid)
  {
    if steps != [] {
      var before, step := steps[..|steps| - 1], steps[|steps| - 1];
      RepliesAreDue(before, rid);
      RepliesStep(After(before), step, rid);
      if step.SendAnswer? {
        PickedIsForAsker(before, step.w);
      }
      hide Next, RepliesTo, Picked, Asker;
    }
  }

  // ----- one answer

  lemma SentOutcome(s: State, w: Socket)
    requires w in s.phase && s.phase[w].Answering?
    ensures var Answering(_, rid, to) := s.phase[w];
            && rid in AnswerSent(s, w).outcome
            && AnswerSent(s, w).outcome[rid] == (if to in s.closed then Lost else Gateway.Answered)
            && to in AnswerSent(s, w).closed
            && AnswerSent(s, w).asked == s.asked
  {
  }

  // Sending on the answer puts one response on the asker's socket, and closes
  // it; only an asker whose socket was closed already never gets one.
  lemma AnswerArrives(before: seq<Step>, w: Socket, later: seq<Step>)
    requires Runs(before + [SendAnswer(w)] + later)
    ensures Runs(before) && Picked(before, w).Some? && Asker(before, Picked(before, w).value).Some?
    ensures var rid := Picked(before, w).value;
            var asker := Asker(before, rid).value;
            && RepliesTo(After(before + [SendAnswer(w)] + later).outbox, rid) ==
               (if asker in After(before).closed then [] else [asker])
            && Runs(before + [SendAnswer(w)]) && asker in After(before + [SendAnswer(w)]).closed
  {
    var upto := before + [SendAnswer(w)];
    EarlierRuns(upto, later);
    assert upto[..|upto| - 1] == before;
    var s := After(before);
    var rid := s.phase[w].rid;
    PickedIsForAsker(before, w);
    SentOutcome(s, w);
    AskedIsAsker(before, rid);
    SettledStays(upto, later, rid);
    AskerStays(upto, later, rid);
    AnsweredAtMostOnce(upto + later, rid);
    assert After(upto) == AnswerSent(s, w);
    AskedIsAsker(upto, rid);
    AskedIsAsker(upto + later, rid);
    hide AnswerSent, Runs, After, RepliesTo, Picked, Asker, Next, Enabled;
  }

  lemma {:induction false} AskerStays(steps: seq<Step>, later: seq<Step>, rid: RequestId)
    requires Runs(steps + later) && Asker(steps, rid).Some?
    ensures Asker(steps + later, rid) == Asker(steps, rid)
    decreases |later|
  {
    if later == [] {
      assert steps + later == steps;
    } else {
      var shorter, step := later[..|later| - 1], later[|later| - 1];
      assert (steps + later)[..|steps + later| - 1] == steps + shorter;
      AskerStays(steps, shorter, rid);
      AskedIsAsker(steps + shorter, rid);
      hide Next;
    }
  }

  lemma {:induction false} PickedOn(steps: seq<Step>, mid: seq<Step>, w: Socket)
    requires Runs(steps + mid) && Picked(steps, w).Some? && SendAnswer(w) !in mid
    ensures Picked(steps + mid, w) == Picked(steps, w)
    decreases |mid|
  {
    if mid == [] {
      assert steps + mid == steps;
    } else {
      var shorter, step := mid[..|mid| - 1], mid[|mid| - 1];
      assert (steps + mid)[..|steps + mid| - 1] == steps + shorter;
      assert step in mid && forall st :: st in shorter ==> st in mid;
      PickedOn(steps, shorter, w);
      AnsweringIsPicked(steps + shorter, w);
      hide Next, AnswersRequest, Awaiting;
    }
  }

  // From the desktop's frame to the client: the answer to a request that still
  // waits is sent on to whoever asked, once, unless that socket closes first.
  lemma AnswerReachesAsker(before: seq<Step>, w: Socket, frame: Frame, mid: seq<Step>, later: seq<Step>,
                           rid: RequestId)
    requires Runs(before + [Receive(w, frame)] + mid + [SendAnswer(w)] + later)
    requires AnswersRequest(before, Receive(w, frame), rid) && Awaiting(before, rid).Some? && SendAnswer(w) !in mid
    ensures Runs(before + [Receive(w, frame)] + mid)
    ensures var sending := before + [Receive(w, frame)] + mid;
            var asker := Awaiting(before, rid).value;
            && RepliesTo(After(sending + [SendAnswer(w)] + later).outbox, rid) ==
               (if asker in After(sending).closed then [] else [asker])
  {
    hide Runs, After, Picked, Asker, Awaiting, AnswersRequest, RepliesTo;
    var received := before + [Receive(w, frame)];
    var sending := received + mid;
    assert sending + ([SendAnswer(w)] + later) == sending + [SendAnswer(w)] + later;
    EarlierRuns(sending, [SendAnswer(w)] + later);
    EarlierRuns(received, mid);
    EarlierRuns(before, [Receive(w, frame)]);
    assert before + ([Receive(w, frame)] + mid) == sending;
    AnswerArrives(sending, w, later);
    PickedUp(before, w, frame, rid);
    PickedOn(received, mid, w);
    WaiterAsked(before, rid);
    AskerStays(before, [Receive(w, frame)] + mid, rid);
  }

  lemma PickedUp(before: seq<Step>, w: Socket, frame: Frame, rid: RequestId)
    requires AnswersRequest(before, Receive(w, frame), rid) && Awaiting(before, rid).Some?
    ensures Picked(before + [Receive(w, frame)], w) == Some(rid)
  {
    var received := before + [Receive(w, frame)];
    assert received[..|received| - 1] == before;
    hide Awaiting;
  }

  lemma WaiterAsked(steps: seq<Step>, rid: RequestId)
    requires Runs(steps) && Awaiting(steps, rid).Some?
    ensures Asker(steps, rid) == Awaiting(steps, rid)
  {
    PendingIsAwaiting(steps, rid);
    AskedIsAsker(steps, rid);
    ReachableInv(steps);
    hide Awaiting, Asker, Runs, After, RegistryFits, SlotFits, LockFits;
  }
}
