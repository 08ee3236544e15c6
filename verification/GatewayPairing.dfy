// Pairing requests, over every run: each is answered at most once, on the
// socket that asked, and never after its timeout has removed it.
module GatewayPairing {
  import opened Gateway
  import opened GatewayFrames
  import opened GatewayInvariant

  // The sockets a response to this request was sent on, in order.
  function RepliesTo(outbox: seq<Sent>, rid: RequestId): seq<Socket> {
    if outbox == [] then []
    else
      var before, m := RepliesTo(outbox[..|outbox| - 1], rid), outbox[|outbox| - 1];
      if m.Replied? && m.rid == rid then before + [m.to] else before
  }

  type Askers = map<RequestId, Socket>
  type Outcomes = map<RequestId, Outcome>

  // What becomes of a request is what the tables and the handlers say.
  ghost predicate OutcomesFit(phase: Phases, pending: Askers, asked: Askers, outcome: Outcomes) {
    && outcome.Keys == asked.Keys
    && pending.Keys <= outcome.Keys
    && (forall rid :: rid in outcome ==> (outcome[rid].Pending? <==> rid in pending))
    && (forall rid :: rid in outcome && outcome[rid].Claimed? ==>
          var w := outcome[rid].holder;
          w in phase && phase[w].Answering? && phase[w].rid == rid)
    && (forall w :: w in phase && phase[w].Answering? ==>
          var Answering(_, rid, to) := phase[w];
          rid in outcome && outcome[rid] == Claimed(w) && to == asked[rid])
  }

  function DueReplies(asked: Askers, outcome: Outcomes, rid: RequestId): seq<Socket> {
    if rid in asked && rid in outcome && outcome[rid].Answered? then [asked[rid]] else []
  }

  ghost predicate RepliesFit(outbox: seq<Sent>, asked: Askers, outcome: Outcomes) {
    forall rid :: RepliesTo(outbox, rid) == DueReplies(asked, outcome, rid)
  }

  ghost predicate PairingFits(s: State) {
    && OutcomesFit(s.phase, s.tables.pending, s.asked, s.outcome)
    && RepliesFit(s.outbox, s.asked, s.outcome)
  }

  // ----- steps that answer no request

  lemma RepliesQuiet(o: seq<Sent>, o': seq<Sent>, asked: Askers, outcome: Outcomes)
    requires RepliesFit(o, asked, outcome)
    requires o' == o || (|o'| == |o| + 1 && o'[..|o|] == o && !o'[|o|].Replied?)
    ensures RepliesFit(o', asked, outcome)
  {
  }

  lemma BystanderPairs(s: State, s': State, w: Socket)
    requires PairingFits(s)
    requires s'.tables.pending == s.tables.pending && s'.asked == s.asked && s'.outcome == s.outcome
    requires s'.outbox == s.outbox ||
             (|s'.outbox| == |s.outbox| + 1 && s'.outbox[..|s.outbox|] == s.outbox && !s'.outbox[|s.outbox|].Replied?)
    requires || s'.phase == s.phase
             || (w in s'.phase && s'.phase == s.phase[w := s'.phase[w]] && !s'.phase[w].Answering?
                 && (w in s.phase ==> !s.phase[w].Answering?))
    ensures PairingFits(s')
  {
    RepliesQuiet(s.outbox, s'.outbox, s.asked, s.outcome);
    hide RepliesFit;
  }

  // ----- a request is stored, claimed, timed out and answered

  lemma StoreOutcomes(phase: Phases, pending: Askers, asked: Askers, outcome: Outcomes,
                      w: Socket, p: Phase, rid: RequestId)
    requires OutcomesFit(phase, pending, asked, outcome) && rid !in asked
    requires w in phase && phase[w].PairStore? && p.PairForward?
    ensures OutcomesFit(phase[w := p], pending[rid := w], asked[rid := w], outcome[rid := Pending])
  {
  }

  lemma StoreReplies(outbox: seq<Sent>, asked: Askers, outcome: Outcomes, w: Socket, rid: RequestId)
    requires RepliesFit(outbox, asked, outcome) && rid !in asked
    ensures RepliesFit(outbox, asked[rid := w], outcome[rid := Pending])
  {
    forall other
      ensures RepliesTo(outbox, other) == DueReplies(asked[rid := w], outcome[rid := Pending], other)
    {
      assert RepliesTo(outbox, other) == DueReplies(asked, outcome, other);
    }
  }

  lemma StorePairs(s: State, w: Socket, rid: RequestId)
    requires PairingFits(s) && w in s.phase && s.phase[w].PairStore? && rid !in s.asked
    ensures PairingFits(RequestStored(s, w, rid))
  {
    StoreReplies(s.outbox, s.asked, s.outcome, w, rid);
    StoreOutcomes(s.phase, s.tables.pending, s.asked, s.outcome, w, PairForward(rid, s.phase[w].desktop), rid);
    hide RepliesFit, OutcomesFit;
  }

  lemma TimeoutPairs(s: State, w: Socket)
    requires PairingFits(s) && w in s.phase && s.phase[w].PairWait?
    ensures PairingFits(TimedOut(s, w))
  {
    var rid := s.phase[w].rid;
    if rid in s.tables.pending {
      OutcomeMoves(s, rid, Expired);
    }
    hide RepliesFit;
  }

  // An unanswered request that goes on unanswered owes the same replies: none.
  lemma OutcomeMoves(s: State, rid: RequestId, next: Outcome)
    requires RepliesFit(s.outbox, s.asked, s.outcome)
    requires !next.Answered? && (rid in s.outcome ==> !s.outcome[rid].Answered?)
    ensures RepliesFit(s.outbox, s.asked, s.outcome[rid := next])
  {
    forall other
      ensures RepliesTo(s.outbox, other) == DueReplies(s.asked, s.outcome[rid := next], other)
    {
      assert RepliesTo(s.outbox, other) == DueReplies(s.asked, s.outcome, other);
    }
  }

  lemma ClaimOutcomes(phase: Phases, pending: Askers, asked: Askers, outcome: Outcomes,
                      w: Socket, id: DeviceId, rid: RequestId)
    requires OutcomesFit(phase, pending, asked, outcome) && w in phase && phase[w].Open? && rid in pending
    ensures OutcomesFit(phase[w := Answering(id, rid, asked[rid])], pending - {rid}, asked, outcome[rid := Claimed(w)])
  {
  }

  lemma ClaimPairs(s: State, w: Socket, answer: Answer)
    requires Inv(s) && PairingFits(s) && w in s.phase && s.phase[w].Open?
    ensures PairingFits(Claim(s, w, answer))
  {
    if answer.rid.Some? && answer.rid.value in s.tables.pending {
      var rid := answer.rid.value;
      assert s.tables.pending[rid] == s.asked[rid] && rid in s.outcome && s.outcome[rid].Pending?;
      hide Inv;
      OutcomeMoves(s, rid, Claimed(w));
      ClaimOutcomes(s.phase, s.tables.pending, s.asked, s.outcome, w, s.phase[w].id, rid);
      hide RepliesFit, OutcomesFit;
    } else {
      hide Inv, PairingFits;
    }
  }

  lemma AnswerOutcomes(phase: Phases, pending: Askers, asked: Askers, outcome: Outcomes,
                       w: Socket, p: Phase, next: Outcome)
    requires OutcomesFit(phase, pending, asked, outcome) && w in phase && phase[w].Answering?
    requires !p.Answering? && !next.Pending? && !next.Claimed?
    ensures OutcomesFit(phase[w := p], pending, asked, outcome[phase[w].rid := next])
  {
  }

  lemma AnswerPairs(s: State, w: Socket)
    requires PairingFits(s) && w in s.phase && s.phase[w].Answering?
    ensures PairingFits(AnswerSent(s, w))
  {
    var Answering(id, rid, to) := s.phase[w];
    assert rid in s.outcome && s.outcome[rid] == Claimed(w) && to == s.asked[rid];
    if to in s.closed {
      OutcomeMoves(s, rid, Lost);
      AnswerOutcomes(s.phase, s.tables.pending, s.asked, s.outcome, w, ClosingSlot(id), Lost);
      hide RepliesFit, OutcomesFit;
    } else {
      ReplySent(s, rid, to);
      AnswerOutcomes(s.phase, s.tables.pending, s.asked, s.outcome, w, Open(id, Desktop), Answered);
      hide RepliesFit, OutcomesFit;
    }
  }

  lemma ReplySent(s: State, rid: RequestId, to: Socket)
    requires RepliesFit(s.outbox, s.asked, s.outcome)
    requires rid in s.outcome && !s.outcome[rid].Answered? && rid in s.asked && s.asked[rid] == to
    ensures RepliesFit(s.outbox + [Replied(to, rid)], s.asked, s.outcome[rid := Answered])
  {
    var o' := s.outbox + [Replied(to, rid)];
    assert o'[..|o'| - 1] == s.outbox;
    forall other
      ensures RepliesTo(o', other) == DueReplies(s.asked, s.outcome[rid := Answered], other)
    {
      assert RepliesTo(s.outbox, other) == DueReplies(s.asked, s.outcome, other);
    }
  }

  lemma HearPairs(s: State, w: Socket, frame: Frame)
    requires Inv(s) && PairingFits(s) && w in s.phase && s.phase[w].Open?
    ensures PairingFits(Hear(s, w, frame))
  {
    hide Inv, PairingFits, Claim, EndsReceiver;
    if frame.Object? && !EndsReceiver(s.phase[w].role, frame) && s.phase[w].role.Desktop? && frame.answer.Some? {
      ClaimPairs(s, w, frame.answer.value);
    } else {
      BystanderPairs(s, Hear(s, w, frame), w);
    }
  }

  lemma RoutePairs(s: State, w: Socket, to: Recipients)
    requires PairingFits(s) && w in s.phase && s.phase[w].Relaying?
    ensures PairingFits(Route(s, w, to))
  {
    RelayKeepsTables(s, w, to);
    RouteKeepsOutcome(s, w, to);
    RouteMoves(s, w, to);
    hide PairingFits, Route;
    BystanderPairs(s, Route(s, w, to), w);
  }

  lemma RouteKeepsOutcome(s: State, w: Socket, to: Recipients)
    requires w in s.phase && s.phase[w].Relaying?
    ensures Route(s, w, to).outcome == s.outcome && Route(s, w, to).asked == s.asked
    ensures Route(s, w, to).outbox == s.outbox
  {
    hide Closing, Chosen;
  }

  lemma RouteMoves(s: State, w: Socket, to: Recipients)
    requires w in s.phase && s.phase[w].Relaying?
    ensures var s' := Route(s, w, to);
            w in s'.phase && s'.phase == s.phase[w := s'.phase[w]] && !s'.phase[w].Answering?
  {
    assert !Closing(s.phase[w].id, s.phase[w].role).Answering?;
    hide Chosen, Closing;
  }

  lemma DeliverPairs(s: State, w: Socket)
    requires PairingFits(s) && w in s.phase && s.phase[w].Sending?
    ensures PairingFits(Deliver(s, w))
  {
    hide PairingFits, Tried;
    assert s.outbox + [] == s.outbox;
    BystanderPairs(s, Deliver(s, w), w);
  }

  lemma BusyStepPairs(s: State, step: Step)
    requires Inv(s) && PairingFits(s) && Enabled(s, step) && !IsAside(step)
    ensures PairingFits(Next(s, step))
  {
    hide Inv, PairingFits, IsSnapshot, RequestStored, TimedOut, Hear, AnswerSent, Route, Deliver;
    match step
    case Store(w, rid) => StorePairs(s, w, rid);
    case Timeout(w) => TimeoutPairs(s, w);
    case Receive(w, frame) => HearPairs(s, w, frame);
    case SendAnswer(w) => AnswerPairs(s, w);
    case TakeSnapshot(w, to) => RoutePairs(s, w, to);
    case SendNext(w) => DeliverPairs(s, w);
  }

  lemma StepPairs(s: State, step: Step)
    requires Inv(s) && PairingFits(s) && Enabled(s, step)
    ensures PairingFits(Next(s, step))
  {
    hide Inv, PairingFits, Enabled, Next, IsAside;
    if IsAside(step) {
      AsideStep(s, step);
      BystanderPairs(s, Next(s, step), step.w);
    } else {
      BusyStepPairs(s, step);
    }
  }

  lemma {:induction false} ReachablePairs(steps: seq<Step>)
    requires Runs(steps)
    ensures PairingFits(After(steps))
  {
    if steps != [] {
      var before := steps[..|steps| - 1];
      ReachableInv(before);
      ReachablePairs(before);
      StepPairs(After(before), steps[|steps| - 1]);
    }
  }

  // ----- what a reader gets

  // In every run each request has at most one response, on the socket that
  // asked, and it has one exactly when its outcome says so.
  lemma AnsweredAtMostOnce(steps: seq<Step>, rid: RequestId)
    requires Runs(steps)
    ensures var s := After(steps);
            RepliesTo(s.outbox, rid) ==
              if rid in s.asked && rid in s.outcome && s.outcome[rid].Answered? then [s.asked[rid]] else []
  {
    ReachablePairs(steps);
    assert RepliesTo(After(steps).outbox, rid) == DueReplies(After(steps).asked, After(steps).outcome, rid);
  }

  // Once answered, timed out or lost, a request stays so.
  predicate Settled(o: Outcome) { o.Answered? || o.Expired? || o.Lost? }

  lemma SettledStep(s: State, step: Step, rid: RequestId)
    requires OutcomesFit(s.phase, s.tables.pending, s.asked, s.outcome)
    requires Enabled(s, step) && rid in s.outcome && Settled(s.outcome[rid])
    ensures rid in Next(s, step).outcome && Next(s, step).outcome[rid] == s.outcome[rid]
  {
    if IsAside(step) {
      hide Enabled, Next, IsAside, Quiet, OnlyMoves, OutcomesFit;
      AsideStep(s, step);
    } else if step.Receive? || step.TakeSnapshot? || step.SendNext? {
      RelayKeepsSettled(s, step, rid);
    } else {
      AnsweringKeepsSettled(s, step, rid);
    }
  }

  lemma RelayKeepsSettled(s: State, step: Step, rid: RequestId)
    requires OutcomesFit(s.phase, s.tables.pending, s.asked, s.outcome)
    requires Enabled(s, step) && rid in s.outcome && Settled(s.outcome[rid])
    requires step.Receive? || step.TakeSnapshot? || step.SendNext?
    ensures rid in Next(s, step).outcome && Next(s, step).outcome[rid] == s.outcome[rid]
  {
    hide OutcomesFit, IsSnapshot, Hear, Route, Tried;
    match step
    case Receive(w, frame) => HearKeepsSettled(s, w, frame, rid);
    case TakeSnapshot(w, to) => RouteKeepsOutcome(s, w, to);
    case SendNext(w) =>
  }

  lemma AnsweringKeepsSettled(s: State, step: Step, rid: RequestId)
    requires OutcomesFit(s.phase, s.tables.pending, s.asked, s.outcome)
    requires Enabled(s, step) && rid in s.outcome && Settled(s.outcome[rid])
    requires step.Store? || step.Timeout? || step.SendAnswer?
    ensures rid in Next(s, step).outcome && Next(s, step).outcome[rid] == s.outcome[rid]
  {
    hide OutcomesFit, RequestStored, TimedOut, AnswerSent;
    match step
    case Store(w, newest) => StoreKeepsSettled(s, w, newest, rid);
    case Timeout(w) => TimeoutKeepsSettled(s, w, rid);
    case SendAnswer(w) => AnswerKeepsSettled(s, w, rid);
  }

  lemma StoreKeepsSettled(s: State, w: Socket, newest: RequestId, rid: RequestId)
    requires OutcomesFit(s.phase, s.tables.pending, s.asked, s.outcome) && rid in s.outcome
    requires w in s.phase && s.phase[w].PairStore? && newest !in s.asked
    ensures rid in RequestStored(s, w, newest).outcome && RequestStored(s, w, newest).outcome[rid] == s.outcome[rid]
  {
    assert rid in s.asked;
    hide OutcomesFit;
  }

  lemma TimeoutKeepsSettled(s: State, w: Socket, rid: RequestId)
    requires OutcomesFit(s.phase, s.tables.pending, s.asked, s.outcome) && rid in s.outcome && Settled(s.outcome[rid])
    requires w in s.phase && s.phase[w].PairWait?
    ensures rid in TimedOut(s, w).outcome && TimedOut(s, w).outcome[rid] == s.outcome[rid]
  {
    assert rid !in s.tables.pending;
    hide OutcomesFit;
  }

  lemma AnswerKeepsSettled(s: State, w: Socket, rid: RequestId)
    requires OutcomesFit(s.phase, s.tables.pending, s.asked, s.outcome) && rid in s.outcome && Settled(s.outcome[rid])
    requires w in s.phase && s.phase[w].Answering?
    ensures rid in AnswerSent(s, w).outcome && AnswerSent(s, w).outcome[rid] == s.outcome[rid]
  {
    assert s.phase[w].rid != rid;
    hide OutcomesFit;
  }

  lemma ClaimKeepsSettled(s: State, w: Socket, answer: Answer, rid: RequestId)
    requires OutcomesFit(s.phase, s.tables.pending, s.asked, s.outcome)
    requires w in s.phase && s.phase[w].Open? && rid in s.outcome && Settled(s.outcome[rid])
    ensures rid in Claim(s, w, answer).outcome && Claim(s, w, answer).outcome[rid] == s.outcome[rid]
  {
  }

  lemma HearKeepsSettled(s: State, w: Socket, frame: Frame, rid: RequestId)
    requires OutcomesFit(s.phase, s.tables.pending, s.asked, s.outcome)
    requires w in s.phase && s.phase[w].Open? && rid in s.outcome && Settled(s.outcome[rid])
    ensures rid in Hear(s, w, frame).outcome && Hear(s, w, frame).outcome[rid] == s.outcome[rid]
  {
    hide Closing, Said, EndsReceiver, Claim;
    if frame.Object? && frame.answer.Some? {
      ClaimKeepsSettled(s, w, frame.answer.value, rid);
    }
    hide OutcomesFit;
  }

  lemma {:induction false} SettledStays(before: seq<Step>, later: seq<Step>, rid: RequestId)
    requires Runs(before + later)
    ensures Runs(before)
    ensures var s, s' := After(before), After(before + later);
            rid in s.outcome && Settled(s.outcome[rid]) ==> rid in s'.outcome && s'.outcome[rid] == s.outcome[rid]
    decreases |later|
  {
    if later == [] {
      assert before + later == before;
    } else {
      var last := |later| - 1;
      var shorter := before + later[..last];
      assert (before + later)[..|before + later| - 1] == shorter;
      assert (before + later)[|before + later| - 1] == later[last];
      SettledStays(before, later[..last], rid);
      ReachablePairs(shorter);
      var s := After(before);
      if rid in s.outcome && Settled(s.outcome[rid]) {
        hide PairingFits, Enabled, Next;
        SettledStep(After(shorter), later[last], rid);
      }
    }
  }

  // Once the timeout has removed a request, nothing is ever sent in reply.
  lemma NeverAfterTimeout(before: seq<Step>, later: seq<Step>, rid: RequestId)
    requires Runs(before + later)
    ensures Runs(before)
    ensures var s := After(before);
            rid in s.outcome && s.outcome[rid].Expired? ==> RepliesTo(After(before + later).outbox, rid) == []
  {
    SettledStays(before, later, rid);
    AnsweredAtMostOnce(before + later, rid);
  }
}
