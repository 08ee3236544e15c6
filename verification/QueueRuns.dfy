// Whole runs of the persistence queue: operations are issued and combined while
// earlier ones are taken off the front and run one at a time.
module QueueRuns {
  import opened Wrappers
  import opened Coalesce

  // dN: the backing store, the item being run, and the items still waiting
  datatype Queue = Queue(store: Store, running: Option<Item>, waiting: seq<Item>)

  datatype Event =
    | Issue(item: Item)   // c_
    | Start               // fL: take the first waiting item
    | Finish              // its effect reaches the store

  function Step(s: Queue, e: Event): Queue {
    match e
    case Issue(item) => s.(waiting := Enqueue(s.waiting, item))
    case Start =>
      if s.running.None? && s.waiting != [] then s.(running := Some(s.waiting[0]), waiting := s.waiting[1..]) else s
    case Finish =>
      if s.running.Some? then s.(store := Run(s.running.value, s.store), running := None) else s
  }

  function Exec(events: seq<Event>, s: Queue): Queue {
    if events == [] then s else Step(Exec(events[..|events| - 1], s), events[|events| - 1])
  }

  // The operations issued, in order, with nothing combined.
  function Issued(events: seq<Event>): seq<Item> {
    if events == [] then []
    else
      var last, before := events[|events| - 1], Issued(events[..|events| - 1]);
      if last.Issue? then before + [last.item] else before
  }

  // The store once everything pending has run.
  function Settled(s: Queue): Store {
    RunAll(s.waiting, AfterRunning(s))
  }

  function AfterRunning(s: Queue): Store {
    if s.running.Some? then Run(s.running.value, s.store) else s.store
  }

  lemma {:induction false} RunShift(q: seq<Item>, k: nat, st: Store)
    requires k < |q|
    ensures RunTo(q, k + 1, st) == RunTo(q[1..], k, Run(q[0], st))
  {
    hide Run;
    if k == 0 {
      assert RunTo(q, 1, st) == Run(q[0], RunTo(q, 0, st));
    } else {
      RunShift(q, k - 1, st);
    }
  }

  lemma TakeFirst(q: seq<Item>, st: Store)
    requires q != []
    ensures RunAll(q, st) == RunAll(q[1..], Run(q[0], st))
    ensures AllSensible(q, st) ==> AllSensible(q[1..], Run(q[0], st))
  {
    hide Run, Sensible;
    forall k | 0 <= k < |q|
      ensures RunTo(q, k + 1, st) == RunTo(q[1..], k, Run(q[0], st))
    {
      RunShift(q, k, st);
    }
    if AllSensible(q, st) {
      forall k | 0 <= k < |q[1..]|
        ensures Sensible(q[1..][k], RunTo(q[1..], k, Run(q[0], st)))
      {
        assert Sensible(q[k + 1], RunTo(q, k + 1, st));
      }
    }
  }

  // The queue will settle on this store, and no create in it will fail.
  ghost predicate SettlesOn(s: Queue, st: Store) {
    AllSensible(s.waiting, AfterRunning(s)) && Settled(s) == st
  }

  lemma StepSettles(s: Queue, e: Event, st: Store)
    requires SettlesOn(s, st) && (e.Issue? ==> Sensible(e.item, st))
    ensures SettlesOn(Step(s, e), if e.Issue? then Run(e.item, st) else st)
  {
    hide Run, Sensible, RunAll, Enqueue, AllSensible;
    if e.Issue? {
      EnqueueMeaning(s.waiting, e.item, AfterRunning(s));
    } else if e.Start? && s.running.None? && s.waiting != [] {
      TakeFirst(s.waiting, s.store);
    }
  }

  // One issued operation, whatever the queue holds: it does what it says exactly
  // unless it deletes a file that survives its own pending create.
  lemma IssueSettlesExactly(s: Queue, item: Item)
    ensures Settled(Step(s, Issue(item))) == Run(item, Settled(s))
       <==> !(item.Delete? && Survives(s.waiting, |s.waiting|, item.name, AfterRunning(s)))
  {
    hide Run, RunAll, Enqueue, Survives;
    EnqueueMeaning(s.waiting, item, AfterRunning(s));
  }

  // Under any interleaving of issuing and running, what is pending leaves the
  // store exactly as running every issued operation in order would, as long as
  // no file is created that is there: writes to missing files may fail.
  lemma {:induction false} CoalescingPreservesMeaning(events: seq<Event>, st: Store)
    requires AllSensible(Issued(events), st)
    ensures SettlesOn(Exec(events, Queue(st, None, [])), RunAll(Issued(events), st))
  {
    if events != [] {
      var last, before := events[|events| - 1], events[..|events| - 1];
      var earlier := Issued(before);
      if last.Issue? {
        var now := Issued(events);
        assert now[..|earlier|] == earlier;
        RunTake(now, |earlier|, st);
        assert Sensible(now[|earlier|], RunTo(now, |earlier|, st));
        RunSnoc(earlier, last.item, st);
      }
      CoalescingPreservesMeaning(before, st);
      StepSettles(Exec(before, Queue(st, None, [])), last, RunAll(earlier, st));
    }
  }

  // In particular once the queue has drained.
  lemma DrainedStore(events: seq<Event>, st: Store)
    requires AllSensible(Issued(events), st)
    ensures var s := Exec(events, Queue(st, None, []));
            s.running.None? && s.waiting == [] ==> s.store == RunAll(Issued(events), st)
  {
    CoalescingPreservesMeaning(events, st);
  }

  // The condition is needed: creating a file that exists fails when run, but
  // combined with a delete the pair vanishes and the file survives.
  lemma FailingCreateIsNotPreserved()
    ensures var st: Store := map["f" := []];
            var items := [Create("f"), Delete("f")];
            var s := Exec([Issue(items[0]), Issue(items[1])], Queue(st, None, []));
            s.waiting == [] && s.store != RunAll(items, st)
  {
    var st: Store := map["f" := []];
    var events := [Issue(Create("f")), Issue(Delete("f"))];
    assert events[..1][..0] == [];
    var s0 := Queue(st, None, []);
    assert events[..1] == [Issue(Create("f"))];
    assert Exec(events[..1], s0) == Step(s0, Issue(Create("f")));
    assert Exec(events, s0) == Step(Exec(events[..1], s0), Issue(Delete("f")));
    var items := [Create("f"), Delete("f")];
    assert RunTo(items, 1, st) == st;
    assert RunAll(items, st) == st - {"f"};
    assert "f" in st && "f" !in RunAll(items, st);
  }

  // ----- the queue drains

  predicate IsRunning(events: seq<Event>) {
    forall i :: 0 <= i < |events| ==> !events[i].Issue?
  }

  predicate IsDrained(s: Queue) { s.running.None? && s.waiting == [] }

  lemma {:induction false} ExecConcat(a: seq<Event>, b: seq<Event>, s: Queue)
    ensures Exec(a + b, s) == Exec(b, Exec(a, s))
  {
    hide Step;
    if b == [] {
      assert a + b == a;
    } else {
      ExecConcat(a, b[..|b| - 1], s);
      assert (a + b)[..|a + b| - 1] == a + b[..|b| - 1];
    }
  }

  lemma ExecOne(e: Event, s: Queue)
    ensures Exec([e], s) == Step(s, e)
  {
    assert [e][..0] == [];
    assert Exec([], s) == s;
    hide Step;
  }

  // A start takes exactly the first waiting item when nothing runs, and a finish
  // frees the slot: in two events there is one item less.
  lemma OneItemLess(s: Queue)
    requires s.running.None? && s.waiting != []
    ensures var started := Step(s, Start);
            && started.running == Some(s.waiting[0]) && started.waiting == s.waiting[1..] && started.store == s.store
            && Step(started, Finish) == Queue(Run(s.waiting[0], s.store), None, s.waiting[1..])
            && Settled(Step(started, Finish)) == Settled(s)
  {
    TakeFirst(s.waiting, s.store);
    hide Run, RunAll;
  }

  // Every queue drains: starting and finishing what is pending, two events for
  // each item and one more for what runs already, ends with nothing pending and
  // the store it had settled on.
  lemma {:induction false} CanDrain(s: Queue) returns (events: seq<Event>)
    ensures IsRunning(events) && |events| <= 2 * |s.waiting| + 1
    ensures s.running.None? ==> |events| <= 2 * |s.waiting|
    ensures var d := Exec(events, s); IsDrained(d) && d.store == Settled(s)
    decreases |s.waiting|, if s.running.Some? then 1 else 0
  {
    if s.running.Some? {
      var freed := Step(s, Finish);
      var rest := CanDrain(freed);
      events := [Finish] + rest;
      ExecOne(Finish, s);
      ExecConcat([Finish], rest, s);
    } else if s.waiting == [] {
      events := [];
    } else {
      OneItemLess(s);
      var started := Step(s, Start);
      var rest := CanDrain(Step(started, Finish));
      events := [Start] + ([Finish] + rest);
      ExecOne(Start, s);
      ExecOne(Finish, started);
      ExecConcat([Finish], rest, started);
      ExecConcat([Start], [Finish] + rest, s);
    }
    hide Step, Run, RunAll;
  }
}
