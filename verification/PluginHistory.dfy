// A plugin's session by the steps of a run alone: when it is connected and
// started, how its own requests are answered, what it sends and when it is over.
module PluginHistory {
  import opened Wrappers
  import opened PluginSession

  // ----- what the steps so far amount to

  // A configure request that succeeds: it leaves the plugin started.
  predicate Starts(before: seq<Step>, step: Step)
    decreases |before|, 1
  {
    && step.Receive? && step.frame.Call? && step.frame.req.verb.Configure?
    && step.first.Returns? && (IsStarted(before) || step.start.Returns?)
  }

  // The plugin is started when the step's effects are cleaned up.
  predicate StartedBy(before: seq<Step>, step: Step)
    decreases |before|, 2
  {
    IsStarted(before) || Starts(before, step)
  }

  // The frame takes an exception out of the connection, past the handler for a
  // closed one.
  predicate Escapes(before: seq<Step>, step: Step)
    decreases |before|, 2
  {
    step.Receive? &&
    (|| step.frame.Unreadable? || step.frame.Malformed?
     || (step.frame.Response? && step.frame.answer.FailureWithoutMessage? && IsDue(before, step.frame.key)))
  }

  // The connection ends: closed, found closed by a reply, or with an exception.
  predicate Ends(before: seq<Step>, step: Step)
    decreases |before|, 3
  {
    || step.Close?
    || (step.Receive? && step.frame.Call? && step.frame.req.id.Some? && !step.goes)
    || Escapes(before, step)
  }

  function StopOf(step: Step): Outcome {
    if step.Receive? || step.Close? then step.stop else Returns
  }

  // The connection ends and on_stop is called and raises.
  predicate StopFails(before: seq<Step>, step: Step)
    decreases |before|, 4
  {
    Ends(before, step) && StartedBy(before, step) && !StopOf(step).Returns?
  }

  predicate IsStarted(steps: seq<Step>)
    decreases |steps|, 0
  {
    if steps == [] then false
    else
      var before, step := steps[..|steps| - 1], steps[|steps| - 1];
      StartedBy(before, step) && (Ends(before, step) ==> StopFails(before, step))
  }

  function Connections(steps: seq<Step>): nat {
    if steps == [] then 0
    else
      var step := steps[|steps| - 1];
      Connections(steps[..|steps| - 1]) + if step.Connect? && (step.how.Opens? || step.how.Unregistered?) then 1 else 0
  }

  // The connection that requests go out on; a failing on_stop leaves a stale one.
  function Connection(steps: seq<Step>): Option<nat>
    decreases |steps|, 0
  {
    if steps == [] then None
    else
      var before, step := steps[..|steps| - 1], steps[|steps| - 1];
      if step.Connect? && (step.how.Opens? || step.how.Unregistered?) then Some(Connections(before))
      else if Ends(before, step) && !StopFails(before, step) then None
      else Connection(before)
  }

  predicate IsOpen(steps: seq<Step>) {
    if steps == [] then false
    else
      var before, step := steps[..|steps| - 1], steps[|steps| - 1];
      (IsOpen(before) || step == Connect(Opens)) && !Ends(before, step)
  }

  // Our requests that the server has not answered.
  function Outstanding(steps: seq<Step>): set<string>
    decreases |steps|, 0
  {
    if steps == [] then {}
    else
      var before, step := steps[..|steps| - 1], steps[|steps| - 1];
      if step.AskServer? && Connection(before).Some? then Outstanding(before) + {step.key}
      else if step.Receive? && step.frame.Response? then Outstanding(before) - {step.frame.key}
      else Outstanding(before)
  }

  // A request that is outstanding and that somebody still waits for.
  predicate IsDue(before: seq<Step>, key: string)
    decreases |before|, 1
  {
    key in Outstanding(before) && GiveUp(key) !in before
  }

  // ----- what they lead to

  // How our requests were resolved: by the first response to each that was not
  // given up, as that response says; one that fails without a message is not.
  function Resolutions(steps: seq<Step>): seq<(string, Answer)> {
    if steps == [] then []
    else
      var before, step := steps[..|steps| - 1], steps[|steps| - 1];
      if step.Receive? && step.frame.Response? && IsDue(before, step.frame.key)
         && !step.frame.answer.FailureWithoutMessage?
      then Resolutions(before) + [(step.frame.key, step.frame.answer)]
      else Resolutions(before)
  }

  // The callbacks that returned.
  function Callbacks(steps: seq<Step>): seq<Callback> {
    if steps == [] then []
    else
      var before, step := steps[..|steps| - 1], steps[|steps| - 1];
      Callbacks(before)
      + (if Starts(before, step) && !IsStarted(before) then [Started] else [])
      + (if Ends(before, step) && StartedBy(before, step) && StopOf(step).Returns? then [Stopped] else [])
  }

  // run() is over: stopped between connections, failed to connect in a way it
  // does not expect, or left by an exception that is no connection error.
  predicate IsOver(steps: seq<Step>) {
    if steps == [] then false
    else
      var before, step := steps[..|steps| - 1], steps[|steps| - 1];
      || IsOver(before) || step.LeaveRun? || step == Connect(Fails)
      || (if StopFails(before, step) then StopOf(step).Raises? else Escapes(before, step))
  }

  // Somebody has asked the plugin to stop.
  predicate IsStopping(steps: seq<Step>) {
    if steps == [] then false
    else
      var step := steps[|steps| - 1];
      || IsStopping(steps[..|steps| - 1]) || step.SetStop?
      || (step.Receive? && step.frame.Call? && step.frame.req.verb.Stop?)
  }

  // What is sent: a registration on each new connection, a reply to each request
  // with an id, and our own requests.
  function Log(steps: seq<Step>): seq<Sent> {
    if steps == [] then []
    else
      var before, step := steps[..|steps| - 1], steps[|steps| - 1];
      Log(before) + Sends(before, step)
  }

  function Sends(before: seq<Step>, step: Step): seq<Sent> {
    match step
    case Connect(Opens) => [Register(Connections(before))]
    case Receive(Call(req), first, start, goes, _) =>
      if goes && req.id.Some? && Connection(before).Some?
      then [Reply(Connection(before).value, req.id.value, BodyDue(req.verb, first, start, IsStarted(before)))]
      else []
    case AskServer(key, goes) =>
      if goes && Connection(before).Some? then [Ask(Connection(before).value, key)] else []
    case _ => []
  }

  // ----- the session is its history

  predicate FlagsAgree(s: State, steps: seq<Step>) {
    && s.started == IsStarted(steps) && s.open == IsOpen(steps) && s.ws == Connection(steps)
    && s.connections == Connections(steps) && s.ended == IsOver(steps)
    && s.stopping == IsStopping(steps) && (s.open ==> !s.ended && s.ws.Some?)
  }

  predicate AnswersAgree(s: State, steps: seq<Step>) {
    && s.pending == Outstanding(steps) && s.resolved == Resolutions(steps)
    && (forall key :: key in s.givenUp ==> GiveUp(key) in steps)
    && (forall step :: step in steps && step.GiveUp? ==> step.key in s.givenUp)
  }

  predicate OutputAgrees(s: State, steps: seq<Step>) {
    s.calls == Callbacks(steps) && s.sent == Log(steps)
  }

  predicate Agrees(s: State, steps: seq<Step>) {
    FlagsAgree(s, steps) && AnswersAgree(s, steps) && OutputAgrees(s, steps)
  }

  // The definitions, one step on.
  lemma EndsMeans(before: seq<Step>, step: Step)
    ensures Starts(before, step) <==>
            step.Receive? && step.frame.Call? && step.frame.req.verb.Configure? && step.first.Returns?
            && (IsStarted(before) || step.start.Returns?)
    ensures StartedBy(before, step) <==> IsStarted(before) || Starts(before, step)
    ensures IsDue(before, if step.Receive? && step.frame.Response? then step.frame.key else "") <==>
            var key := if step.Receive? && step.frame.Response? then step.frame.key else "";
            key in Outstanding(before) && GiveUp(key) !in before
    ensures Escapes(before, step) <==>
            step.Receive? && (step.frame.Unreadable? || step.frame.Malformed?
              || (step.frame.Response? && step.frame.answer.FailureWithoutMessage? && IsDue(before, step.frame.key)))
    ensures Ends(before, step) <==>
            step.Close? || (step.Receive? && step.frame.Call? && step.frame.req.id.Some? && !step.goes)
            || Escapes(before, step)
    ensures StopFails(before, step) <==> Ends(before, step) && StartedBy(before, step) && !StopOf(step).Returns?
  {
  }

  lemma Grows(before: seq<Step>, step: Step)
    ensures var steps := before + [step];
            && (IsStarted(steps) <==> StartedBy(before, step) && (Ends(before, step) ==> StopFails(before, step)))
            && (IsOpen(steps) <==> (IsOpen(before) || step == Connect(Opens)) && !Ends(before, step))
            && Connection(steps) ==
               (if step.Connect? && (step.how.Opens? || step.how.Unregistered?) then Some(Connections(before))
                else if Ends(before, step) && !StopFails(before, step) then None
                else Connection(before))
            && Outstanding(steps) ==
               (if step.AskServer? && Connection(before).Some? then Outstanding(before) + {step.key}
                else if step.Receive? && step.frame.Response? then Outstanding(before) - {step.frame.key}
                else Outstanding(before))
  {
    assert (before + [step])[..|before|] == before;
  }

  lemma FlagsGrow(before: seq<Step>, step: Step)
    ensures var steps := before + [step];
            && Connections(steps) == Connections(before) +
               (if step.Connect? && (step.how.Opens? || step.how.Unregistered?) then 1 else 0)
            && IsOver(steps) ==
               (IsOver(before) || step.LeaveRun? || step == Connect(Fails)
                || (if StopFails(before, step) then StopOf(step).Raises? else Escapes(before, step)))
            && IsStopping(steps) == (IsStopping(before) || step.SetStop?
                                     || (step.Receive? && step.frame.Call? && step.frame.req.verb.Stop?))
            && Log(steps) == Log(before) + Sends(before, step)
            && Callbacks(steps) ==
               Callbacks(before)
               + (if Starts(before, step) && !IsStarted(before) then [Started] else [])
               + (if Ends(before, step) && StartedBy(before, step) && StopOf(step).Returns? then [Stopped] else [])
            && Resolutions(steps) ==
               (if step.Receive? && step.frame.Response? && IsDue(before, step.frame.key)
                   && !step.frame.answer.FailureWithoutMessage?
                then Resolutions(before) + [(step.frame.key, step.frame.answer)] else Resolutions(before))
  {
    assert (before + [step])[..|before|] == before;
    hide StopFails, Escapes, Starts, StartedBy, Ends, IsDue;
  }

  lemma OffLineAgrees(s: State, before: seq<Step>, step: Step)
    requires Agrees(s, before) && Enabled(s, step) && !step.Receive? && !step.Close?
    ensures Agrees(Next(s, step), before + [step])
  {
    EndsMeans(before, step);
    Grows(before, step);
    FlagsGrow(before, step);
    hide StopFails, Escapes, Starts, StartedBy, Ends, IsDue, IsStarted, IsOpen, Connection, Connections, IsOver, Log,
         IsStopping, Callbacks, Resolutions, Outstanding, BodyDue;
  }

  lemma CloseAgrees(s: State, before: seq<Step>, stop: Outcome)
    requires Agrees(s, before) && Enabled(s, Close(stop))
    ensures Agrees(Next(s, Close(stop)), before + [Close(stop)])
  {
    EndsMeans(before, Close(stop));
    Grows(before, Close(stop));
    FlagsGrow(before, Close(stop));
    hide StopFails, Escapes, Starts, StartedBy, Ends, IsDue, IsStarted, IsOpen, Connection, Connections, IsOver, Log,
         IsStopping, Callbacks, Resolutions, Outstanding, BodyDue;
  }

  lemma OddFrameAgrees(s: State, before: seq<Step>, step: Step)
    requires Agrees(s, before) && Enabled(s, step) && step.Receive?
    requires step.frame.NotJson? || step.frame.Unreadable? || step.frame.Malformed?
    ensures Agrees(Next(s, step), before + [step])
  {
    EndsMeans(before, step);
    Grows(before, step);
    FlagsGrow(before, step);
    hide StopFails, Escapes, Starts, StartedBy, Ends, IsDue, IsStarted, IsOpen, Connection, Connections, IsOver, Log,
         IsStopping, Callbacks, Resolutions, Outstanding, BodyDue;
  }

  lemma ResponseAgrees(s: State, before: seq<Step>, step: Step)
    requires Agrees(s, before) && Enabled(s, step) && step.Receive? && step.frame.Response?
    ensures Agrees(Next(s, step), before + [step])
  {
    EndsMeans(before, step);
    Grows(before, step);
    FlagsGrow(before, step);
    hide StopFails, Escapes, Starts, StartedBy, Ends, IsDue, IsStarted, IsOpen, Connection, Connections, IsOver, Log,
         IsStopping, Callbacks, Resolutions, Outstanding, BodyDue;
  }

  lemma CallAgrees(s: State, before: seq<Step>, step: Step)
    requires Agrees(s, before) && Enabled(s, step) && step.Receive? && step.frame.Call?
    ensures Agrees(Next(s, step), before + [step])
  {
    EndsMeans(before, step);
    Grows(before, step);
    FlagsGrow(before, step);
    hide StopFails, Escapes, Starts, StartedBy, Ends, IsDue, IsStarted, IsOpen, Connection, Connections, IsOver, Log,
         IsStopping, Callbacks, Resolutions, Outstanding;
  }

  lemma StepAgrees(s: State, before: seq<Step>, step: Step)
    requires Agrees(s, before) && Enabled(s, step)
    ensures Agrees(Next(s, step), before + [step])
  {
    hide Agrees, Enabled, Next;
    if step.Close? {
      CloseAgrees(s, before, step.stop);
    } else if !step.Receive? {
      OffLineAgrees(s, before, step);
    } else if step.frame.Call? {
      CallAgrees(s, before, step);
    } else if step.frame.Response? {
      ResponseAgrees(s, before, step);
    } else {
      OddFrameAgrees(s, before, step);
    }
  }

  // In every run the session is what its history says: connected, started,
  // stopping and over as the steps make it, its requests answered by the
  // responses received, and everything sent and called back accounted for.
  lemma {:induction false} SessionIsItsHistory(steps: seq<Step>)
    requires Runs(steps)
    ensures Agrees(After(steps), steps)
  {
    if steps != [] {
      var before, step := steps[..|steps| - 1], steps[|steps| - 1];
      SessionIsItsHistory(before);
      assert before + [step] == steps;
      hide Agrees, Enabled, Next;
      StepAgrees(After(before), before, step);
    }
  }

  // ----- what a reader gets

  // In every run our requests are resolved exactly by the responses received,
  // each as its response says and in their order.
  lemma ResolvedByResponses(steps: seq<Step>)
    requires Runs(steps)
    ensures After(steps).resolved == Resolutions(steps)
  {
    SessionIsItsHistory(steps);
    hide FlagsAgree, OutputAgrees, Runs, After;
  }

  // In every run, run() is over exactly for one of its reasons.
  lemma OverForAReason(steps: seq<Step>)
    requires Runs(steps)
    ensures After(steps).ended <==> IsOver(steps)
  {
    SessionIsItsHistory(steps);
    hide AnswersAgree, OutputAgrees, Runs, After;
  }

  // A connection that ends without an exception, or with an on_stop that raises
  // a connection error, is followed by another unless the plugin is to stop, and
  // that one is registered anew.
  lemma ReconnectsAfterEnd(before: seq<Step>, step: Step)
    requires Runs(before + [step]) && Ends(before, step) && !IsStopping(before + [step])
    ensures if (if StopFails(before, step) then StopOf(step).Raises? else Escapes(before, step))
            then After(before + [step]).ended
            else
              && Enabled(After(before + [step]), Connect(Opens)) && Runs(before + [step, Connect(Opens)])
              && After(before + [step, Connect(Opens)]).open
              && After(before + [step, Connect(Opens)]).sent ==
                 After(before + [step]).sent + [Register(Connections(before + [step]))]
  {
    var steps := before + [step];
    assert steps[..|steps| - 1] == before;
    EndedByStep(before, step);
    SessionIsItsHistory(steps);
    assert steps + [Connect(Opens)] == before + [step, Connect(Opens)];
    hide AnswersAgree, OutputAgrees, Ends, StopFails, Escapes, Runs, After, IsOpen, IsOver, Connections, IsStopping;
    if !(if StopFails(before, step) then StopOf(step).Raises? else Escapes(before, step)) {
      RunSnoc(steps, Connect(Opens));
    }
  }

  // Only an open connection ends, and then it is not open any more.
  lemma EndedByStep(before: seq<Step>, step: Step)
    requires Runs(before + [step]) && Ends(before, step)
    ensures !IsOpen(before + [step])
    ensures IsOver(before + [step]) <==> if StopFails(before, step) then StopOf(step).Raises? else Escapes(before, step)
  {
    var steps := before + [step];
    assert steps[..|steps| - 1] == before;
    SessionIsItsHistory(before);
    EndsMeans(before, step);
    Grows(before, step);
    FlagsGrow(before, step);
    assert Enabled(After(before), step);
    hide AnswersAgree, OutputAgrees, Ends, StopFails, Escapes, Runs, After, IsOpen, IsOver, Connections, IsStopping,
         Starts, StartedBy, IsDue, IsStarted, Connection, Log, Callbacks, Resolutions, Outstanding;
  }
}
