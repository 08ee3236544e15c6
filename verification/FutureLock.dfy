// The worker's lock: each use waits for the future the last one left in the
// lock's only field, so the uses form a chain.
module FutureLock {
  import opened Wrappers

  // Tickets number the uses in the order they were asked for; a ticket's future
  // completes when its body has finished, well or badly.
  datatype State = State(
    issued: nat,
    tail: Option<nat>,          // the lock's field: the last future not yet cleared
    waitsFor: map<nat, nat>,    // uses not yet started, and the future each waits for
    running: set<nat>,
    completed: set<nat>,
    started: seq<nat>)          // every use that has started, in order

  function Unused(): State { State(0, None, map[], {}, {}, []) }

  datatype Step = Ask | Begin(r: nat) | Finish(r: nat)

  predicate Enabled(s: State, step: Step) {
    match step
    case Ask => true
    case Begin(r) => r in s.waitsFor && s.waitsFor[r] in s.completed
    case Finish(r) => r in s.running
  }

  // bF.cu: with no future to wait for, the body starts at once
  function Asked(s: State): State {
    var r := s.issued;
    var s' := s.(issued := r + 1, tail := Some(r));
    if s.tail.Some? then s'.(waitsFor := s.waitsFor[r := s.tail.value])
    else s'.(running := s.running + {r}, started := s.started + [r])
  }

  // l7: the awaited future completed
  function Begun(s: State, r: nat): State {
    s.(waitsFor := s.waitsFor - {r}, running := s.running + {r}, started := s.started + [r])
  }

  // l6: complete the future, and clear the field if it is still the last
  function Finished(s: State, r: nat): State {
    s.(running := s.running - {r}, completed := s.completed + {r}, tail := if s.tail == Some(r) then None else s.tail)
  }

  function Next(s: State, step: Step): State {
    match step
    case Ask => Asked(s)
    case Begin(r) => Begun(s, r)
    case Finish(r) => Finished(s, r)
  }

  // The lock as the worker's closures update it.
  class Lock {
    var issued: nat
    var tail: Option<nat>
    var waitsFor: map<nat, nat>
    var running: set<nat>
    var completed: set<nat>
    var started: seq<nat>

    constructor ()
      ensures Now() == Unused()
    {
      issued, tail, waitsFor, running, completed, started := 0, None, map[], {}, {}, [];
    }

    function Now(): State
      reads this
    {
      State(issued, tail, waitsFor, running, completed, started)
    }

    method Use() returns (r: nat)
      modifies this
      ensures r == old(issued) && Now() == Asked(old(Now()))
    {
      var last := tail;
      r := issued;
      issued := r + 1;
      tail := Some(r);
      if last.Some? {
        waitsFor := waitsFor[r := last.value];
      } else {
        RunBody(r);
      }
    }

    method RunBody(r: nat)
      modifies this`running, this`started
      ensures running == old(running) + {r} && started == old(started) + [r]
    {
      running := running + {r};
      started := started + [r];
    }

    method Resume(r: nat)
      modifies this
      ensures Now() == Begun(old(Now()), r)
    {
      waitsFor := waitsFor - {r};
      RunBody(r);
    }

    method Complete(r: nat)
      modifies this
      ensures Now() == Finished(old(Now()), r)
    {
      running := running - {r};
      completed := completed + {r};
      if tail == Some(r) {
        tail := None;
      }
    }
  }

  // ----- runs

  predicate Runs(steps: seq<Step>)
    decreases |steps|, 0
  {
    steps == [] || (Runs(steps[..|steps| - 1]) && Enabled(After(steps[..|steps| - 1]), steps[|steps| - 1]))
  }

  function After(steps: seq<Step>): State
    requires Runs(steps)
    decreases |steps|, 1
  {
    if steps == [] then Unused() else Next(After(steps[..|steps| - 1]), steps[|steps| - 1])
  }

  // The first k uses have finished, the next one runs or may start, the others
  // each wait for the one before.
  ghost predicate Fits(s: State, k: nat) {
    && k <= s.issued
    && (forall r :: r in s.completed <==> 0 <= r < k)
    && (forall r :: r in s.running ==> r == k && k < s.issued)
    && (forall r :: r in s.waitsFor ==> k <= r < s.issued && s.waitsFor[r] == r - 1 && r !in s.running)
    && (forall r :: k <= r < s.issued ==> r in s.waitsFor || r in s.running)
    && s.tail == (if k < s.issued then Some(s.issued - 1) else None)
    && |s.started| == (if k in s.running then k + 1 else k)
    && (forall i :: 0 <= i < |s.started| ==> s.started[i] == i)
  }

  function NowFinished(k: nat, step: Step): nat { if step.Finish? then k + 1 else k }

  lemma StepFits(s: State, k: nat, step: Step)
    requires Fits(s, k) && Enabled(s, step)
    ensures Fits(Next(s, step), NowFinished(k, step))
  {
    match step {
      case Ask => AskFits(s, k);
      case Begin(r) => BeginFits(s, k, r);
      case Finish(r) => FinishFits(s, k, r);
    }
  }

  lemma AskFits(s: State, k: nat)
    requires Fits(s, k)
    ensures Fits(Asked(s), k)
  {
  }

  lemma BeginFits(s: State, k: nat, r: nat)
    requires Fits(s, k) && r in s.waitsFor && s.waitsFor[r] in s.completed
    ensures Fits(Begun(s, r), k)
  {
    assert r == k;
  }

  lemma FinishFits(s: State, k: nat, r: nat)
    requires Fits(s, k) && r in s.running
    ensures Fits(Finished(s, r), k + 1)
  {
  }

  lemma {:induction false} ReachableFits(steps: seq<Step>) returns (k: nat)
    requires Runs(steps)
    ensures Fits(After(steps), k)
  {
    if steps == [] {
      k := 0;
    } else {
      var before := steps[..|steps| - 1];
      k := ReachableFits(before);
      hide Fits, Enabled;
      StepFits(After(before), k, steps[|steps| - 1]);
      k := NowFinished(k, steps[|steps| - 1]);
    }
  }

  // At most one body runs at a time.
  lemma MutualExclusion(steps: seq<Step>, a: nat, b: nat)
    requires Runs(steps) && a in After(steps).running && b in After(steps).running
    ensures a == b
  {
    var k := ReachableFits(steps);
  }

  // Bodies start in the order their uses were asked for, none left out.
  lemma FirstComeFirstServed(steps: seq<Step>, i: nat)
    requires Runs(steps) && i < |After(steps).started|
    ensures After(steps).started[i] == i
  {
    var k := ReachableFits(steps);
  }

  // The field is empty exactly when nothing runs or waits.
  lemma TailEmptyWhenIdle(steps: seq<Step>)
    requires Runs(steps)
    ensures var s := After(steps);
            s.tail.None? <==> s.running == {} && s.waitsFor == map[]
  {
    var k := ReachableFits(steps);
    var s := After(steps);
    if k < s.issued {
      assert k in s.waitsFor || k in s.running;
    }
  }

  // Never stuck: while something waits, a body runs or the next may start.
  lemma NeverStuck(steps: seq<Step>, r: nat)
    requires Runs(steps) && r in After(steps).waitsFor
    ensures exists step: Step :: !step.Ask? && Enabled(After(steps), step)
  {
    var k := ReachableFits(steps);
    var s := After(steps);
    if k in s.running {
      assert Enabled(s, Finish(k));
    } else {
      assert k in s.waitsFor;
      // The first use of all never waits.
      assert s.waitsFor[k] == k - 1;
      assert Enabled(s, Begin(k));
    }
  }

  // ----- every use runs

  function Asks(steps: seq<Step>): nat {
    if steps == [] then 0 else Asks(steps[..|steps| - 1]) + if steps[|steps| - 1].Ask? then 1 else 0
  }

  // Every use asked for has its ticket, and a future is complete exactly when
  // its body has finished.
  lemma {:induction false} TicketsAreAsks(steps: seq<Step>, r: nat)
    requires Runs(steps)
    ensures After(steps).issued == Asks(steps)
    ensures r in After(steps).completed <==> Finish(r) in steps
  {
    if steps != [] {
      TicketsAreAsks(steps[..|steps| - 1], r);
      assert steps == steps[..|steps| - 1] + [steps[|steps| - 1]];
    }
  }

  lemma Do(steps: seq<Step>, step: Step)
    requires Runs(steps) && Enabled(After(steps), step)
    ensures Runs(steps + [step]) && After(steps + [step]) == Next(After(steps), step)
  {
    assert (steps + [step])[..|steps|] == steps;
    hide Next, Enabled;
  }

  // The next use can begin, if it has not, and finish.
  lemma FinishNext(steps: seq<Step>, k: nat) returns (more: seq<Step>)
    requires Runs(steps) && Fits(After(steps), k) && k < After(steps).issued
    ensures Runs(steps + more) && |more| <= 2 && forall step :: step in more ==> !step.Ask?
    ensures Fits(After(steps + more), k + 1) && After(steps + more).issued == After(steps).issued
  {
    var s := After(steps);
    more := [];
    assert steps + [] == steps;
    if k !in s.running {
      assert k in s.waitsFor && s.waitsFor[k] == k - 1;
      more := [Begin(k)];
      Do(steps, Begin(k));
      BeginFits(s, k, k);
    }
    var begun := steps + more;
    assert k in After(begun).running;
    Do(begun, Finish(k));
    FinishFits(After(begun), k, k);
    assert steps + (more + [Finish(k)]) == begun + [Finish(k)];
    more := more + [Finish(k)];
  }

  lemma {:induction false} FinishAll(steps: seq<Step>, k: nat) returns (more: seq<Step>)
    requires Runs(steps) && Fits(After(steps), k)
    ensures Runs(steps + more) && |more| <= 2 * (After(steps).issued - k) && forall step :: step in more ==> !step.Ask?
    ensures After(steps + more).issued == After(steps).issued && Fits(After(steps + more), After(steps).issued)
    decreases After(steps).issued - k
  {
    more := [];
    assert steps + [] == steps;
    assert k <= After(steps).issued;
    if k < After(steps).issued {
      var next := FinishNext(steps, k);
      hide Fits, Runs, After;
      var rest := FinishAll(steps + next, k + 1);
      assert steps + (next + rest) == steps + next + rest;
      more := next + rest;
    }
  }

  // In every reachable state the uses asked for so far can all be run, in the
  // order they were asked for, by at most two steps each; then the lock is idle.
  lemma EveryUseCanRun(steps: seq<Step>) returns (more: seq<Step>)
    requires Runs(steps)
    ensures Runs(steps + more) && |more| <= 2 * Asks(steps) && forall step :: step in more ==> !step.Ask?
    ensures var s := After(steps + more);
            && |s.started| == Asks(steps) && (forall i :: 0 <= i < Asks(steps) ==> s.started[i] == i)
            && (forall r :: r in s.completed <==> 0 <= r < Asks(steps))
            && s.running == {} && s.waitsFor == map[] && s.tail.None?
  {
    var k := ReachableFits(steps);
    TicketsAreAsks(steps, 0);
    more := FinishAll(steps, k);
    hide Runs, After, Asks;
  }
}
