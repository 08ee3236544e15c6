// Fetching a trace: a batched crawl over child lists that may share runs, form
// cycles or name runs the server does not have.
module TraceCrawl {
  import opened Wrappers

  type Id = string

  datatype Run = Run(id: Id, parent: Option<Id>, start: Option<string>, children: seq<Id>)

  // The runs the server has, by id.
  type Server = map<Id, Run>

  predicate IsServer(world: Server) {
    forall id :: id in world ==> world[id].id == id
  }

  // A chain of child links between runs the server has.
  predicate IsPath(world: Server, path: seq<Id>) {
    && path != []
    && (forall i :: 0 <= i < |path| ==> path[i] in world)
    && (forall i :: 0 <= i < |path| - 1 ==> path[i + 1] in world[path[i]].children)
  }

  ghost predicate Reachable(world: Server, root: Id, id: Id) {
    exists path :: IsPath(world, path) && path[0] == root && path[|path| - 1] == id
  }

  lemma ReachableStep(world: Server, root: Id, id: Id, child: Id)
    requires Reachable(world, root, id) && child in world[id].children && child in world
    ensures Reachable(world, root, child)
  {
    var path :| IsPath(world, path) && path[0] == root && path[|path| - 1] == id;
    assert IsPath(world, path + [child]);
  }

  // Every child of what was seen was seen or is still to be asked for.
  ghost predicate Covered(world: Server, seen: set<Id>, frontier: seq<Id>, todo: seq<Id>) {
    forall id, c :: id in seen && id in world && c in world[id].children && c in world ==>
      c in seen || c in frontier || c in todo
  }

  // With nothing left to ask for, everything reachable was seen.
  lemma {:induction false} ClosedPath(world: Server, seen: set<Id>, path: seq<Id>)
    requires Covered(world, seen, [], []) && IsPath(world, path) && path[0] in seen
    ensures path[|path| - 1] in seen
  {
    if |path| > 1 {
      var shorter := path[..|path| - 1];
      ClosedPath(world, seen, shorter);
      assert path[|path| - 1] in world[shorter[|shorter| - 1]].children;
    }
  }

  lemma ClosedReachable(world: Server, seen: set<Id>, root: Id)
    requires Covered(world, seen, [], []) && root in seen
    ensures forall id :: Reachable(world, root, id) ==> id in seen
  {
    forall id | Reachable(world, root, id)
      ensures id in seen
    {
      var path :| IsPath(world, path) && path[0] == root && path[|path| - 1] == id;
      ClosedPath(world, seen, path);
    }
  }

  // What the server may answer to a query: the runs it has, in any order and
  // any number of times.
  ghost predicate Answers(world: Server, ids: seq<Id>, runs: seq<Run>) {
    && (forall i :: 0 <= i < |runs| ==> runs[i].id in ids && runs[i].id in world && runs[i] == world[runs[i].id])
    && (forall id :: id in ids && id in world ==> world[id] in runs)
  }

  method QueryIds(world: Server, ids: seq<Id>) returns (runs: seq<Run>)
    requires IsServer(world)
    ensures Answers(world, ids, runs)
  {
    runs := [];
    for i := 0 to |ids|
      invariant Answers(world, ids[..i], runs)
    {
      if ids[i] in world {
        runs := runs + [world[ids[i]]];
      }
    }
    assert ids[..|ids|] == ids;
  }

  // What the crawl has so far: each run once, in the order it was found.
  ghost predicate Collected(world: Server, root: Id, seen: set<Id>, runs: seq<Run>) {
    && (forall i :: 0 <= i < |runs| ==> runs[i].id in seen && runs[i].id in world && runs[i] == world[runs[i].id])
    && (forall i, j :: 0 <= i < j < |runs| ==> runs[i].id != runs[j].id)
    && (forall id :: id in seen ==> id in world && world[id] in runs && Reachable(world, root, id))
  }

  // What is still to be asked for, if the server has it, is reachable.
  ghost predicate Leads(world: Server, root: Id, ids: seq<Id>) {
    forall i :: 0 <= i < |ids| && ids[i] in world ==> Reachable(world, root, ids[i])
  }

  lemma ChildrenLead(world: Server, root: Id, id: Id)
    requires Reachable(world, root, id) && id in world
    ensures Leads(world, root, world[id].children)
  {
    var ids := world[id].children;
    forall i | 0 <= i < |ids| && ids[i] in world
      ensures Reachable(world, root, ids[i])
    {
      ReachableStep(world, root, id, ids[i]);
    }
  }

  lemma CollectOne(world: Server, root: Id, seen: set<Id>, runs: seq<Run>, run: Run)
    requires IsServer(world) && Collected(world, root, seen, runs)
    requires run.id !in seen && run.id in world && run == world[run.id] && Reachable(world, root, run.id)
    ensures Collected(world, root, seen + {run.id}, runs + [run])
  {
    hide Reachable;
  }

  lemma LeadsBoth(world: Server, root: Id, a: seq<Id>, b: seq<Id>)
    requires Leads(world, root, a) && Leads(world, root, b)
    ensures Leads(world, root, a + b)
  {
    hide Reachable;
  }

  lemma CoverOne(world: Server, seen: set<Id>, frontier: seq<Id>, todo: seq<Id>, id: Id)
    requires Covered(world, seen, frontier, todo) && id in world
    ensures Covered(world, seen + {id}, frontier + world[id].children, todo)
  {
  }

  // The crawl's books while part of a round is still to be asked for.
  ghost predicate Going(world: Server, root: Id, seen: set<Id>, runs: seq<Run>, frontier: seq<Id>, todo: seq<Id>) {
    Collected(world, root, seen, runs) && Leads(world, root, frontier) && Covered(world, seen, frontier, todo)
  }

  lemma GoingIs(world: Server, root: Id, seen: set<Id>, runs: seq<Run>, frontier: seq<Id>, todo: seq<Id>)
    ensures Going(world, root, seen, runs, frontier, todo) <==>
            Collected(world, root, seen, runs) && Leads(world, root, frontier) && Covered(world, seen, frontier, todo)
  {
  }

  lemma AnswerAt(world: Server, ids: seq<Id>, runs: seq<Run>, i: nat)
    requires Answers(world, ids, runs) && i < |runs|
    ensures runs[i].id in ids && runs[i].id in world && runs[i] == world[runs[i].id]
  {
  }

  lemma TakeOne(world: Server, root: Id, seen: set<Id>, runs: seq<Run>, frontier: seq<Id>,
                chunk: seq<Id>, rest: seq<Id>, run: Run)
    requires IsServer(world) && Going(world, root, seen, runs, frontier, chunk + rest) && Leads(world, root, chunk)
    requires run.id in chunk && run.id in world && run == world[run.id] && run.id !in seen
    ensures Going(world, root, seen + {run.id}, runs + [run], frontier + run.children, chunk + rest)
  {
    hide Collected, Leads, Covered, Reachable;
    LeadAt(world, root, chunk, run.id);
    CollectOne(world, root, seen, runs, run);
    CoverOne(world, seen, frontier, chunk + rest, run.id);
    ChildrenLead(world, root, run.id);
    LeadsBoth(world, root, frontier, run.children);
  }

  // One batch: its answers are added, and their children become the frontier.
  method TakeBatch(world: Server, root: Id, seen0: set<Id>, runs0: seq<Run>, frontier0: seq<Id>,
                   chunk: seq<Id>, ghost rest: seq<Id>)
    returns (seen: set<Id>, runs: seq<Run>, frontier: seq<Id>)
    requires IsServer(world) && Collected(world, root, seen0, runs0)
    requires Leads(world, root, frontier0) && Leads(world, root, chunk)
    requires Covered(world, seen0, frontier0, chunk + rest)
    ensures Collected(world, root, seen, runs) && Leads(world, root, frontier)
    ensures Covered(world, seen, frontier, rest)
    ensures seen0 <= seen <= seen0 + world.Keys && runs0 <= runs && (seen == seen0 ==> frontier == frontier0)
  {
    seen, runs, frontier := seen0, runs0, frontier0;
    var found := QueryIds(world, chunk);
    hide Collected, Leads, Covered, Reachable, IsServer, Answers, Going;
    GoingIs(world, root, seen, runs, frontier, chunk + rest);
    for i := 0 to |found|
      invariant Going(world, root, seen, runs, frontier, chunk + rest)
      invariant seen0 <= seen <= seen0 + world.Keys && runs0 <= runs && (seen == seen0 ==> frontier == frontier0)
      invariant forall j :: 0 <= j < i ==> found[j].id in seen
    {
      var run := found[i];
      AnswerAt(world, chunk, found, i);
      if run.id !in seen {
        TakeOne(world, root, seen, runs, frontier, chunk, rest, run);
        seen := seen + {run.id};
        runs := runs + [run];
        frontier := frontier + run.children;
      }
    }
    GoingIs(world, root, seen, runs, frontier, chunk + rest);
    ChunkDone(world, seen, frontier, chunk, rest, found);
  }

  lemma LeadAt(world: Server, root: Id, ids: seq<Id>, id: Id)
    requires Leads(world, root, ids) && id in ids && id in world
    ensures Reachable(world, root, id)
  {
  }

  lemma ChunkDone(world: Server, seen: set<Id>, frontier: seq<Id>, chunk: seq<Id>, rest: seq<Id>, found: seq<Run>)
    requires Covered(world, seen, frontier, chunk + rest) && Answers(world, chunk, found) && IsServer(world)
    requires forall j :: 0 <= j < |found| ==> found[j].id in seen
    ensures Covered(world, seen, frontier, rest)
  {
    forall c | c in chunk && c in world
      ensures c in seen
    {
      assert world[c] in found;
    }
  }

  // The ids of the frontier not seen yet; one that occurs twice stays twice.
  function Unseen(frontier: seq<Id>, seen: set<Id>): (todo: seq<Id>)
    ensures forall c :: c in todo <==> c in frontier && c !in seen
  {
    if frontier == [] then []
    else if frontier[0] in seen then Unseen(frontier[1..], seen)
    else [frontier[0]] + Unseen(frontier[1..], seen)
  }

  lemma UnseenCovers(world: Server, root: Id, seen: set<Id>, frontier: seq<Id>)
    requires Covered(world, seen, frontier, []) && Leads(world, root, frontier)
    ensures Covered(world, seen, [], Unseen(frontier, seen)) && Leads(world, root, Unseen(frontier, seen))
  {
    hide Reachable;
    var todo := Unseen(frontier, seen);
    forall i | 0 <= i < |todo| && todo[i] in world
      ensures Reachable(world, root, todo[i])
    {
      assert todo[i] in todo;
      LeadAt(world, root, frontier, todo[i]);
    }
  }

  lemma LeadsPart(world: Server, root: Id, ids: seq<Id>, lo: nat, hi: nat)
    requires Leads(world, root, ids) && lo <= hi <= |ids|
    ensures Leads(world, root, ids[lo..hi])
  {
    hide Reachable;
  }

  // One round: everything still to be asked for, batch by batch.
  method TakeRound(world: Server, root: Id, seen0: set<Id>, runs0: seq<Run>, todo: seq<Id>, batch: nat)
    returns (seen: set<Id>, runs: seq<Run>, frontier: seq<Id>)
    requires IsServer(world) && batch >= 1 && Collected(world, root, seen0, runs0)
    requires Leads(world, root, todo) && Covered(world, seen0, [], todo)
    ensures Collected(world, root, seen, runs) && Leads(world, root, frontier)
    ensures Covered(world, seen, frontier, [])
    ensures seen0 <= seen <= seen0 + world.Keys && runs0 <= runs && (seen == seen0 ==> frontier == [])
  {
    hide Collected, Covered, Reachable;
    seen, runs, frontier := seen0, runs0, [];
    var start := 0;
    while start < |todo|
      invariant Collected(world, root, seen, runs) && Leads(world, root, frontier)
      invariant Covered(world, seen, frontier, if start <= |todo| then todo[start..] else [])
      invariant seen0 <= seen <= seen0 + world.Keys && runs0 <= runs && (seen == seen0 ==> frontier == [])
      decreases |todo| - start
    {
      hide Leads;
      var end := if start + batch <= |todo| then start + batch else |todo|;
      assert todo[start..] == todo[start..end] + todo[end..];
      LeadsPart(world, root, todo, start, end);
      seen, runs, frontier := TakeBatch(world, root, seen, runs, frontier, todo[start..end], todo[end..]);
      start := start + batch;
    }
    assert start == |todo| ==> todo[start..] == [];
  }

  // fetch_all_runs, for any batch size
  method FetchAllRuns(world: Server, root: Run, batch: nat) returns (runs: seq<Run>)
    requires IsServer(world) && root.id in world && world[root.id] == root && batch >= 1
    ensures |runs| >= 1 && runs[0] == root
    ensures forall i, j :: 0 <= i < j < |runs| ==> runs[i].id != runs[j].id
    ensures forall i :: 0 <= i < |runs| ==> Reachable(world, root.id, runs[i].id) && runs[i] == world[runs[i].id]
    ensures forall id :: Reachable(world, root.id, id) ==> id in world && world[id] in runs
  {
    runs := [root];
    var frontier := root.children;
    var seen := {root.id};
    RootCollected(world, root);
    hide Collected, Leads, Covered, Reachable;
    while frontier != []
      invariant Collected(world, root.id, seen, runs) && Leads(world, root.id, frontier)
      invariant Covered(world, seen, frontier, [])
      invariant [root] <= runs && root.id in seen && seen <= world.Keys
      decreases |world.Keys - seen|, |frontier|
    {
      UnseenCovers(world, root.id, seen, frontier);
      var todo := Unseen(frontier, seen);
      ghost var before := seen;
      seen, runs, frontier := TakeRound(world, root.id, seen, runs, todo, batch);
      if seen != before {
        FewerLeft(world.Keys, before, seen);
      }
    }
    ClosedReachable(world, seen, root.id);
    AllCollected(world, root.id, seen, runs);
  }

  lemma RootCollected(world: Server, root: Run)
    requires IsServer(world) && root.id in world && world[root.id] == root
    ensures Collected(world, root.id, {root.id}, [root]) && Leads(world, root.id, root.children)
    ensures Covered(world, {root.id}, root.children, [])
  {
    assert IsPath(world, [root.id]);
    assert Reachable(world, root.id, root.id);
    ChildrenLead(world, root.id, root.id);
  }

  lemma FewerLeft(all: set<Id>, before: set<Id>, after: set<Id>)
    requires before <= after <= all && before != after
    ensures |all - after| < |all - before|
  {
    var left, left' := all - before, all - after;
    assert left' <= left && left' != left by {
      var id :| id in after && id !in before;
      assert id in left && id !in left';
    }
    SubsetSmaller(left', left);
  }

  lemma SubsetSmaller(a: set<Id>, b: set<Id>)
    requires a < b
    ensures |a| < |b|
  {
    assert b == a + (b - a);
    assert |b| == |a| + |b - a|;
    assert b - a != {};
  }

  lemma AllCollected(world: Server, root: Id, seen: set<Id>, runs: seq<Run>)
    requires Collected(world, root, seen, runs) && (forall id :: Reachable(world, root, id) ==> id in seen)
    ensures forall i, j :: 0 <= i < j < |runs| ==> runs[i].id != runs[j].id
    ensures forall i :: 0 <= i < |runs| ==> Reachable(world, root, runs[i].id) && runs[i] == world[runs[i].id]
    ensures forall id :: Reachable(world, root, id) ==> id in world && world[id] in runs
  {
    hide Reachable;
  }
}
