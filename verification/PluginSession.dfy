// A channel plugin's session with the server: frames, disconnects and
// reconnects, and the plugin callbacks and replies they lead to.
module PluginSession {
  import opened Wrappers

  datatype Id = Text(text: string) | Number(number: int)

  datatype Method = Send | Configure | Event(named: bool, dataIsObject: bool) | Stop | Status | Unknown

  datatype Request = Request(verb: Method, id: Option<Id>)

  datatype Answer = Value | Failure | FailureWithoutMessage

  // A frame. Parsing an unreadable one fails in another way than with a
  // JSONDecodeError (a number too long, nesting too deep); a malformed one is JSON
  // that is no object, or that a model refuses.
  datatype Frame = NotJson | Unreadable | Malformed | Call(req: Request) | Response(key: string, answer: Answer)

  // How a plugin callback ends; one that raises while stopping may raise an
  // error that makes the transport reconnect.
  datatype Outcome = Returns | Raises | RaisesConnectionError

  datatype Callback = Started | Stopped

  datatype Body = Success | MethodNotFound | InternalError

  datatype Sent = Register(conn: nat) | Reply(conn: nat, id: Id, body: Body) | Ask(conn: nat, key: string)

  datatype State = State(
    ws: Option<nat>,                      // the current connection, or a stale one
    open: bool,                           // inside the message loop
    connections: nat,
    started: bool,
    stopping: bool,                       // the stop event
    ended: bool,                          // run() has returned or raised
    pending: set<string>,                 // futures of requests not yet answered
    asked: set<string>,
    givenUp: set<string>,                 // futures cancelled by whoever waited
    resolved: seq<(string, Answer)>,
    calls: seq<Callback>,                 // on_start and on_stop calls that returned
    sent: seq<Sent>)

  function Fresh(): State {
    State(None, false, 0, false, false, false, {}, {}, {}, [], [], [])
  }

  // ----- one request

  // What the method does to the session, and how it is answered.
  function Handled(s: State, verb: Method, first: Outcome, start: Outcome): (State, Body) {
    match verb
    case Send => (s, if first.Returns? then Success else InternalError)
    case Configure =>
      if !first.Returns? then (s, InternalError)
      else if s.started then (s, Success)
      else if start.Returns? then (s.(started := true, calls := s.calls + [Started]), Success)
      else (s, InternalError)
    case Event(named, dataIsObject) =>
      (s, if named && dataIsObject && first.Returns? then Success else InternalError)
    case Stop => (s.(stopping := true), Success)
    case Status => (s, Success)
    case Unknown => (s, MethodNotFound)
  }

  // _dispatch; the reply may find the connection closed
  function Dispatched(s: State, req: Request, first: Outcome, start: Outcome, goes: bool): (State, bool) {
    var (s', body) := Handled(s, req.verb, first, start);
    if req.id.None? || s'.ws.None? then (s', true)
    else if goes then (s'.(sent := s'.sent + [Reply(s'.ws.value, req.id.value, body)]), true)
    else (s', false)
  }

  // The answer to a request of ours; false if it raises.
  function Answered(s: State, key: string, answer: Answer): (State, bool) {
    if key !in s.pending then (s, true)
    else
      var s' := s.(pending := s.pending - {key});
      if key in s.givenUp then (s', true)
      else if answer.FailureWithoutMessage? then (s', false)
      else (s'.(resolved := s.resolved + [(key, answer)]), true)
  }

  // The finally block of _connect_and_run, and what run() makes of it: an
  // exception from on_stop replaces the one on its way.
  function Closed(s: State, escapes: bool, stop: Outcome): State {
    if !s.started then s.(open := false, ws := None, ended := escapes)
    else if stop.Returns? then
      s.(open := false, ws := None, ended := escapes, started := false, calls := s.calls + [Stopped])
    else s.(open := false, ended := stop.Raises?)
  }

  // _handle_frame and what follows if it raises
  function Received(s: State, frame: Frame, first: Outcome, start: Outcome, goes: bool, stop: Outcome): State {
    match frame
    case NotJson => s
    case Unreadable => Closed(s, true, stop)
    case Malformed => Closed(s, true, stop)
    case Call(req) =>
      var (s', sent) := Dispatched(s, req, first, start, goes);
      if sent then s' else Closed(s', false, stop)
    case Response(key, answer) =>
      var (s', fine) := Answered(s, key, answer);
      if fine then s' else Closed(s', true, stop)
  }

  // ----- the steps of a run

  datatype Connecting = Refused | Unregistered | Opens | Fails

  datatype Step =
    | Connect(how: Connecting)
    | Receive(frame: Frame, first: Outcome, start: Outcome, goes: bool, stop: Outcome)
    | Close(stop: Outcome)
    | LeaveRun
    | SetStop
    | AskServer(key: string, goes: bool)
    | GiveUp(key: string)

  predicate Enabled(s: State, step: Step) {
    match step
    case Connect(_) => !s.open && !s.ended && !s.stopping
    case Receive(_, _, _, _, _) => s.open
    case Close(_) => s.open
    case LeaveRun => !s.open && s.stopping
    case SetStop => true
    case AskServer(key, _) => key !in s.asked
    case GiveUp(key) => key in s.pending
  }

  function Connected(s: State, how: Connecting): State {
    match how
    case Refused => s
    case Unregistered => s.(ws := Some(s.connections), connections := s.connections + 1)
    case Opens => s.(ws := Some(s.connections), connections := s.connections + 1, open := true,
                     sent := s.sent + [Register(s.connections)])
    case Fails => s.(ended := true)
  }

  // request()
  function AskedServer(s: State, key: string, goes: bool): State {
    if s.ws.None? then s
    else
      var s' := s.(pending := s.pending + {key}, asked := s.asked + {key});
      if goes then s'.(sent := s.sent + [Ask(s.ws.value, key)]) else s'
  }

  function Next(s: State, step: Step): State {
    match step
    case Connect(how) => Connected(s, how)
    case Receive(frame, first, start, goes, stop) => Received(s, frame, first, start, goes, stop)
    case Close(stop) => Closed(s, false, stop)
    case LeaveRun => s.(ended := true)
    case SetStop => s.(stopping := true)
    case AskServer(key, goes) => AskedServer(s, key, goes)
    case GiveUp(key) => s.(givenUp := s.givenUp + {key})
  }

  predicate Runs(steps: seq<Step>)
    decreases |steps|, 0
  {
    steps == [] || (Runs(steps[..|steps| - 1]) && Enabled(After(steps[..|steps| - 1]), steps[|steps| - 1]))
  }

  function After(steps: seq<Step>): State
    requires Runs(steps)
    decreases |steps|, 1
  {
    if steps == [] then Fresh() else Next(After(steps[..|steps| - 1]), steps[|steps| - 1])
  }

  // ----- the transport object

  class Transport {
    var ws: Option<nat>
    var open: bool
    var connections: nat
    var started: bool
    var stopping: bool
    var ended: bool
    var pending: set<string>
    var asked: set<string>
    var givenUp: set<string>
    var resolved: seq<(string, Answer)>
    var calls: seq<Callback>
    var sent: seq<Sent>

    constructor ()
      ensures Now() == Fresh()
    {
      ws, open, connections := None, false, 0;
      started, stopping, ended := false, false, false;
      pending, asked, givenUp := {}, {}, {};
      resolved, calls, sent := [], [], [];
    }

    function Now(): State
      reads this
    {
      State(ws, open, connections, started, stopping, ended, pending, asked, givenUp, resolved, calls, sent)
    }

    // The plugin's outcomes and whether the reply goes out are the environment's.
    method Handle(verb: Method, first: Outcome, start: Outcome) returns (error: Option<Body>)
      modifies this
      ensures (Now(), if error.Some? then error.value else Success) == Handled(old(Now()), verb, first, start)
    {
      error := None;
      match verb {
        case Send =>
          if !first.Returns? { error := Some(InternalError); }
        case Configure =>
          if !first.Returns? {
            error := Some(InternalError);
          } else if !started {
            if start.Returns? {
              calls := calls + [Started];
              started := true;
            } else {
              error := Some(InternalError);
            }
          }
        case Event(named, dataIsObject) =>
          if !named || !dataIsObject || !first.Returns? { error := Some(InternalError); }
        case Stop => stopping := true;
        case Status =>
        case Unknown => error := Some(MethodNotFound);
      }
    }

    method Dispatch(req: Request, first: Outcome, start: Outcome, goes: bool) returns (fine: bool)
      modifies this
      ensures (Now(), fine) == Dispatched(old(Now()), req, first, start, goes)
    {
      hide Handled;
      var error := Handle(req.verb, first, start);
      if req.id.Some? && ws.Some? {
        if !goes { return false; }
        sent := sent + [Reply(ws.value, req.id.value, if error.Some? then error.value else Success)];
      }
      return true;
    }

    method Resolve(key: string, answer: Answer) returns (fine: bool)
      modifies this
      ensures (Now(), fine) == Answered(old(Now()), key, answer)
    {
      if key in pending {
        pending := pending - {key};
        if key !in givenUp {
          if answer.FailureWithoutMessage? { return false; }
          resolved := resolved + [(key, answer)];
        }
      }
      return true;
    }

    method Finish(escapes: bool, stop: Outcome)
      modifies this
      ensures Now() == Closed(old(Now()), escapes, stop)
    {
      open := false;
      if started {
        if !stop.Returns? {
          ended := stop.Raises?;
          return;
        }
        calls := calls + [Stopped];
        started := false;
      }
      ws := None;
      ended := escapes;
    }

    method HandleFrame(frame: Frame, first: Outcome, start: Outcome, goes: bool, stop: Outcome)
      modifies this
      ensures Now() == Received(old(Now()), frame, first, start, goes, stop)
    {
      match frame {
        case NotJson =>
        case Unreadable => Finish(true, stop);
        case Malformed => Finish(true, stop);
        case Call(req) =>
          var fine := Dispatch(req, first, start, goes);
          if !fine { Finish(false, stop); }
        case Response(key, answer) =>
          var fine := Resolve(key, answer);
          if !fine { Finish(true, stop); }
      }
    }

    method AskFor(key: string, goes: bool) returns (connected: bool)
      modifies this
      ensures Now() == AskedServer(old(Now()), key, goes) && connected == old(ws).Some?
    {
      if ws.None? { return false; }
      pending, asked := pending + {key}, asked + {key};
      if goes { sent := sent + [Ask(ws.value, key)]; }
      return true;
    }
  }

  // ----- the callbacks alternate

  predicate Alternates(calls: seq<Callback>) {
    forall i :: 0 <= i < |calls| ==> calls[i] == if i % 2 == 0 then Started else Stopped
  }

  predicate SessionFits(s: State) {
    && Alternates(s.calls) && (s.started <==> |s.calls| % 2 == 1)
    && (s.open ==> s.ws.Some?)
  }

  lemma HandledFits(s: State, verb: Method, first: Outcome, start: Outcome)
    requires SessionFits(s)
    ensures SessionFits(Handled(s, verb, first, start).0)
    ensures Handled(s, verb, first, start).0.ws == s.ws && Handled(s, verb, first, start).0.sent == s.sent
    ensures Handled(s, verb, first, start).0.open == s.open
  {
  }

  lemma ClosedFits(s: State, escapes: bool, stop: Outcome)
    requires SessionFits(s)
    ensures SessionFits(Closed(s, escapes, stop))
  {
  }

  lemma ReceivedFits(s: State, frame: Frame, first: Outcome, start: Outcome, goes: bool, stop: Outcome)
    requires SessionFits(s)
    ensures SessionFits(Received(s, frame, first, start, goes, stop))
  {
    match frame {
      case NotJson =>
      case Unreadable => ClosedFits(s, true, stop);
      case Malformed => ClosedFits(s, true, stop);
      case Call(req) =>
        HandledFits(s, req.verb, first, start);
        hide Handled, Closed, Alternates;
        var s' := Dispatched(s, req, first, start, goes).0;
        assert SessionFits(s');
        ClosedFits(s', false, stop);
      case Response(key, answer) =>
        ClosedFits(Answered(s, key, answer).0, true, stop);
        hide Closed, Alternates;
    }
  }

  lemma StepFits(s: State, step: Step)
    requires SessionFits(s) && Enabled(s, step)
    ensures SessionFits(Next(s, step))
  {
    hide Received, Closed;
    match step {
      case Receive(frame, first, start, goes, stop) => ReceivedFits(s, frame, first, start, goes, stop);
      case Close(stop) => ClosedFits(s, false, stop);
      case _ =>
    }
  }

  // In every run the on_start and on_stop calls that returned alternate, an
  // on_start first, and the flag tells which was last.
  lemma {:induction false} CallbacksAlternate(steps: seq<Step>)
    requires Runs(steps)
    ensures SessionFits(After(steps))
  {
    if steps != [] {
      CallbacksAlternate(steps[..|steps| - 1]);
      StepFits(After(steps[..|steps| - 1]), steps[|steps| - 1]);
    }
  }

  // ----- one reply for each request, none for a notification

  function Replies(sent: seq<Sent>): seq<(nat, Id, Body)> {
    if sent == [] then []
    else
      var before, m := Replies(sent[..|sent| - 1]), sent[|sent| - 1];
      if m.Reply? then before + [(m.conn, m.id, m.body)] else before
  }

  // The plugin raises while the request is handled, or its parameters are bad.
  predicate Fails(verb: Method, first: Outcome, start: Outcome, started: bool) {
    match verb
    case Send => !first.Returns?
    case Configure => !first.Returns? || (!started && !start.Returns?)
    case Event(named, dataIsObject) => !named || !dataIsObject || !first.Returns?
    case _ => false
  }

  // How a request has to be answered.
  function BodyDue(verb: Method, first: Outcome, start: Outcome, started: bool): Body {
    if verb.Unknown? then MethodNotFound else if Fails(verb, first, start, started) then InternalError else Success
  }

  // What handling a request does: it is answered as due, a configure that
  // succeeds leaves the plugin started, nothing else starts it, and only a stop
  // sets the stop event.
  lemma ReplyMeans(s: State, verb: Method, first: Outcome, start: Outcome)
    ensures var (s', body) := Handled(s, verb, first, start);
            && body == BodyDue(verb, first, start, s.started)
            && (s'.started <==> s.started || (verb.Configure? && body.Success?))
            && (s'.stopping <==> s.stopping || verb.Stop?)
            && s'.ws == s.ws && s'.sent == s.sent
  {
  }

  // A request with an id whose reply the connection still takes.
  predicate IsAnswerable(step: Step) {
    step.Receive? && step.frame.Call? && step.frame.req.id.Some? && step.goes
  }

  function DueReply(s: State, step: Step): (nat, Id, Body)
    requires IsAnswerable(step) && s.ws.Some?
  {
    (s.ws.value, step.frame.req.id.value, BodyDue(step.frame.req.verb, step.first, step.start, s.started))
  }

  // The replies due for the answerable requests of a run, each on the connection
  // the request came in on.
  function Due(steps: seq<Step>): seq<(nat, Id, Body)>
    requires Runs(steps)
  {
    if steps == [] then []
    else
      var before, step := steps[..|steps| - 1], steps[|steps| - 1];
      if IsAnswerable(step) && After(before).ws.Some? then Due(before) + [DueReply(After(before), step)]
      else Due(before)
  }

  lemma ReplyAdded(sent: seq<Sent>, m: Sent)
    ensures Replies(sent + [m]) == if m.Reply? then Replies(sent) + [(m.conn, m.id, m.body)] else Replies(sent)
  {
    assert (sent + [m])[..|sent|] == sent;
  }

  lemma ReceivedReplies(s: State, frame: Frame, first: Outcome, start: Outcome, goes: bool, stop: Outcome)
    ensures Received(s, frame, first, start, goes, stop).sent ==
            if frame.Call? && frame.req.id.Some? && goes && s.ws.Some?
            then s.sent + [Reply(s.ws.value, frame.req.id.value, BodyDue(frame.req.verb, first, start, s.started))]
            else s.sent
  {
    if frame.Call? {
      ReplyMeans(s, frame.req.verb, first, start);
      hide Handled, BodyDue;
    }
  }

  lemma OtherStepsReplyNothing(s: State, step: Step)
    requires !step.Receive?
    ensures Replies(Next(s, step).sent) == Replies(s.sent)
  {
    ReplyAdded(s.sent, Register(s.connections));
    if step.AskServer? && s.ws.Some? {
      ReplyAdded(s.sent, Ask(s.ws.value, step.key));
    }
    hide Replies;
  }

  lemma ReceiveReplies(s: State, step: Step)
    requires step.Receive?
    ensures Replies(Next(s, step).sent) ==
            Replies(s.sent) + if IsAnswerable(step) && s.ws.Some? then [DueReply(s, step)] else []
  {
    ReceivedReplies(s, step.frame, step.first, step.start, step.goes, step.stop);
    hide Received, Replies, BodyDue;
    if IsAnswerable(step) && s.ws.Some? {
      var (conn, id, body) := DueReply(s, step);
      ReplyAdded(s.sent, Reply(conn, id, body));
    }
  }

  // In every run the replies sent are exactly one for each request with an id,
  // in order, echoing it, on the connection it came in on, with the answer due;
  // notifications and requests whose connection is already closed get none.
  lemma {:induction false} OneReplyPerRequest(steps: seq<Step>)
    requires Runs(steps)
    ensures Replies(After(steps).sent) == Due(steps)
  {
    if steps != [] {
      var before, step := steps[..|steps| - 1], steps[|steps| - 1];
      OneReplyPerRequest(before);
      hide Next, Enabled, Replies, DueReply;
      if step.Receive? {
        ReceiveReplies(After(before), step);
      } else {
        OtherStepsReplyNothing(After(before), step);
      }
    }
  }

  // ----- the plugin between connections

  // The step takes the session out of the message loop.
  predicate EndsConnection(s: State, step: Step) {
    s.open && !Next(s, step).open
  }

  // Whether the plugin was started when the connection was cleaned up: a
  // configure whose reply could not be sent has taken effect already.
  predicate StartedAtCleanup(s: State, step: Step) {
    s.started || (step.Receive? && step.frame.Call? && step.frame.req.verb.Configure?
                  && !Fails(Configure, step.first, step.start, s.started))
  }

  // The plugin stays counted as started when a connection ends exactly if it was
  // started and its on_stop did not return.
  lemma StartedAfterEnd(s: State, step: Step)
    requires Enabled(s, step) && EndsConnection(s, step)
    ensures step.Close? || step.Receive?
    ensures Next(s, step).started <==> StartedAtCleanup(s, step) && !step.stop.Returns?
  {
    if step.Receive? && step.frame.Call? {
      ReplyMeans(s, step.frame.req.verb, step.first, step.start);
      hide Handled;
    }
  }

  lemma OffLineUntouched(s: State, step: Step)
    requires Enabled(s, step) && !s.open
    ensures Next(s, step).started == s.started && !EndsConnection(s, step)
  {
  }

  // By the history alone: the last connection that ended left the plugin started.
  predicate Lingers(steps: seq<Step>)
    requires Runs(steps)
  {
    if steps == [] then false
    else
      var before, step := steps[..|steps| - 1], steps[|steps| - 1];
      if EndsConnection(After(before), step)
      then StartedAtCleanup(After(before), step) && (step.Close? || step.Receive?) && !step.stop.Returns?
      else Lingers(before)
  }

  // In every run, outside a connection the plugin is counted as started exactly
  // when the last connection left it so.
  lemma {:induction false} StartedOffLine(steps: seq<Step>)
    requires Runs(steps)
    ensures !After(steps).open ==> (After(steps).started <==> Lingers(steps))
  {
    if steps != [] {
      var before, step := steps[..|steps| - 1], steps[|steps| - 1];
      StartedOffLine(before);
      hide Next, StartedAtCleanup;
      if !After(before).open {
        OffLineUntouched(After(before), step);
      } else if EndsConnection(After(before), step) {
        StartedAfterEnd(After(before), step);
      }
    }
  }

  // One on_stop that raises a connection error: after the reconnect a configure
  // succeeds without starting the plugin again.
  lemma StaleStartWitness(id: Id)
    ensures var configure := Receive(Call(Request(Configure, Some(id))), Returns, Returns, true, Returns);
            var steps := [Connect(Opens), configure, Close(RaisesConnectionError), Connect(Opens), configure];
            && Runs(steps) && After(steps).calls == [Started]
            && After(steps).sent == [Register(0), Reply(0, id, Success), Register(1), Reply(1, id, Success)]
  {
    var configure := Receive(Call(Request(Configure, Some(id))), Returns, Returns, true, Returns);
    var open, close := Connect(Opens), Close(RaisesConnectionError);
    var s1 := Next(Fresh(), open);
    var s2, s3 := Next(s1, configure), Next(Next(s1, configure), close);
    var s4 := Next(s3, open);
    assert s2.started && s2.calls == [Started] && s2.sent == [Register(0), Reply(0, id, Success)];
    assert s3 == s2.(open := false);
    assert s4.sent == s3.sent + [Register(1)] && s4.started && s4.open && s4.ws == Some(1);
    assert Next(s4, configure) == s4.(sent := s4.sent + [Reply(1, id, Success)]);
    hide Next;
    RunSnoc([], open);
    assert [] + [open] == [open];
    RunSnoc([open], configure);
    assert [open] + [configure] == [open, configure];
    RunSnoc([open, configure], close);
    assert [open, configure] + [close] == [open, configure, close];
    RunSnoc([open, configure, close], open);
    assert [open, configure, close] + [open] == [open, configure, close, open];
    RunSnoc([open, configure, close, open], configure);
    assert [open, configure, close, open] + [configure] == [open, configure, close, open, configure];
    hide Runs, After;
  }

  lemma RunSnoc(steps: seq<Step>, step: Step)
    requires Runs(steps) && Enabled(After(steps), step)
    ensures Runs(steps + [step]) && After(steps + [step]) == Next(After(steps), step)
  {
    assert (steps + [step])[..|steps|] == steps;
    hide Next, Enabled;
  }

  // ----- our own requests are answered at most once

  predicate AnswersFit(s: State) {
    && s.pending <= s.asked
    && (forall i :: 0 <= i < |s.resolved| ==> s.resolved[i].0 in s.asked && s.resolved[i].0 !in s.pending)
    && (forall i, j :: 0 <= i < j < |s.resolved| ==> s.resolved[i].0 != s.resolved[j].0)
  }

  predicate SameAnswers(s: State, s': State) {
    s'.pending == s.pending && s'.asked == s.asked && s'.resolved == s.resolved
  }

  lemma DispatchKeepsAnswers(s: State, req: Request, first: Outcome, start: Outcome, goes: bool)
    ensures SameAnswers(s, Dispatched(s, req, first, start, goes).0)
  {
  }

  lemma ReceiveAnswers(s: State, frame: Frame, first: Outcome, start: Outcome, goes: bool, stop: Outcome)
    requires AnswersFit(s)
    ensures AnswersFit(Received(s, frame, first, start, goes, stop))
  {
    match frame {
      case Call(req) =>
        DispatchKeepsAnswers(s, req, first, start, goes);
        hide Dispatched;
      case Response(key, answer) =>
        assert AnswersFit(Answered(s, key, answer).0);
        hide Answered;
      case _ =>
    }
  }

  lemma StepAnswers(s: State, step: Step)
    requires AnswersFit(s) && Enabled(s, step)
    ensures AnswersFit(Next(s, step))
  {
    if step.Receive? {
      ReceiveAnswers(s, step.frame, step.first, step.start, step.goes, step.stop);
    }
    hide Received;
  }

  lemma {:induction false} AnsweredAtMostOnce(steps: seq<Step>)
    requires Runs(steps)
    ensures AnswersFit(After(steps))
  {
    if steps != [] {
      AnsweredAtMostOnce(steps[..|steps| - 1]);
      hide AnswersFit, Enabled, Next;
      StepAnswers(After(steps[..|steps| - 1]), steps[|steps| - 1]);
    }
  }
}
