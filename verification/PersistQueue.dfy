// The persistence queue in its own form: pending items on the linked ring,
// combined by walking the ring backwards and unlinking as it goes.
module PersistQueue {
  import opened Wrappers
  import opened Coalesce
  import opened QueueRuns
  import opened LinkedRing

  lemma {:induction false} PurgePrefix(q: seq<Item>, r: seq<Item>, k: nat, n: string)
    requires k <= |q| && k <= |r| && q[..k] == r[..k]
    ensures Purge(q, k, n) == Purge(r, k, n)
  {
    if k > 0 {
      assert q[k - 1] == q[..k][k - 1] == r[..k][k - 1] == r[k - 1];
      assert q[..k - 1] == q[..k][..k - 1] == r[..k - 1];
      PurgePrefix(q, r, k - 1, n);
    }
  }

  // The walk for a delete of n has reached position k of q: what it will leave
  // of the first k items, followed by the items already passed.
  ghost predicate Purging(q: seq<Item>, k: nat, n: string, goal: (seq<Item>, bool)) {
    k <= |q| && goal == (Purge(q, k, n).0 + q[k..], Purge(q, k, n).1)
  }

  lemma PurgingStart(q: seq<Item>, n: string)
    ensures Purging(q, |q|, n, Purge(q, |q|, n))
  {
    var p := Purge(q, |q|, n).0;
    assert p + q[|q|..] == p;
  }

  lemma PurgingKeep(q: seq<Item>, k: nat, n: string, goal: (seq<Item>, bool))
    requires 0 < k && Purging(q, k, n, goal) && !q[k - 1].Barrier? && q[k - 1].name != n
    ensures Purging(q, k - 1, n, goal)
  {
    assert q[k - 1..] == [q[k - 1]] + q[k..];
    var p := Purge(q, k - 1, n).0;
    assert (p + [q[k - 1]]) + q[k..] == p + ([q[k - 1]] + q[k..]);
  }

  lemma PurgingDrop(q: seq<Item>, k: nat, n: string, goal: (seq<Item>, bool))
    requires 0 < k && Purging(q, k, n, goal) && q[k - 1].Write? && q[k - 1].name == n
    ensures Purging(Drop(q, k - 1), k - 1, n, goal)
  {
    var r := Drop(q, k - 1);
    assert r[..k - 1] == q[..k - 1] && r[k - 1..] == q[k..];
    PurgePrefix(q, r, k - 1, n);
  }

  lemma PurgingStop(q: seq<Item>, k: nat, n: string, goal: (seq<Item>, bool))
    requires Purging(q, k, n, goal)
    ensures k == 0 || q[k - 1].Barrier? ==> goal == (q, true)
    ensures k > 0 && q[k - 1] == Delete(n) ==> goal == (q, false)
    ensures k > 0 && q[k - 1] == Create(n) ==> goal == (Drop(q, k - 1), false)
  {
    assert q[..k] + q[k..] == q;
  }

  // A pending write to the deleted file is unlinked, and the walk goes on from
  // the entry before it.
  method DropWrite(list: LinkedList, s: Entry, ghost k: nat, n: string, ghost goal: (seq<Item>, bool))
    returns (p: Entry?)
    requires list.Valid() && 0 < k <= |list.nodes| && list.nodes[k - 1] == s
    requires |list.items| == |list.nodes| && list.items[k - 1].Write? && list.items[k - 1].name == n
    requires Purging(list.items, k, n, goal)
    modifies list, list.repr
    ensures list.Valid() && list.repr == old(list.repr)
    ensures Purging(list.items, k - 1, n, goal) && k - 1 <= |list.nodes|
    ensures p == if k == 1 then null else list.nodes[k - 2]
  {
    hide Purge, Purging, LinkedList.Valid, Drop;
    PurgingDrop(list.items, k, n, goal);
    p := list.Previous(s, k - 1);
    list.Unlink(s, k - 1);
  }

  // One step of the walk of ed.ey, at the entry s in position k - 1: either the
  // walk is over, or it goes on at p with one entry less to visit.
  method PurgeStep(list: LinkedList, s: Entry, ghost k: nat, n: string, ghost goal: (seq<Item>, bool))
    returns (over: bool, needed: bool, p: Entry?)
    requires list.Valid() && 0 < k <= |list.nodes| && list.nodes[k - 1] == s
    requires |list.items| == |list.nodes| && s.item == list.items[k - 1]
    requires Purging(list.items, k, n, goal)
    modifies list, list.repr
    ensures list.Valid() && list.repr == old(list.repr)
    ensures over ==> goal == (list.items, needed)
    ensures !over ==> Purging(list.items, k - 1, n, goal) && k - 1 <= |list.nodes|
    ensures !over ==> p == if k == 1 then null else list.nodes[k - 2]
  {
    hide Purge, Purging, LinkedList.Valid, Drop;
    ghost var q := list.items;
    PurgingStop(q, k, n, goal);
    over, needed, p := false, false, null;
    var item := s.item;
    if item.Barrier? {
      over, needed := true, true;
    } else if item.name != n {
      PurgingKeep(q, k, n, goal);
      p := list.Previous(s, k - 1);
    } else if item.Write? {
      p := DropWrite(list, s, k, n, goal);
    } else {
      over := true;
      if item.Create? {
        list.Unlink(s, k - 1);
      }
    }
  }

  // The walk of ed.ey: true when the delete still has to be appended.
  method PurgeWalk(list: LinkedList, n: string) returns (needed: bool)
    requires list.Valid()
    modifies list, list.repr
    ensures list.Valid() && list.repr == old(list.repr)
    ensures var q := old(list.items);
            (list.items, needed) == Purge(q, |q|, n)
  {
    hide Purge, Purging, LinkedList.Valid;
    list.Sizes();
    ghost var goal, k := Purge(list.items, |list.items|, n), |list.nodes|;
    PurgingStart(list.items, n);
    var s := list.Last();
    while s != null
      invariant list.Valid() && list.repr == old(list.repr)
      invariant 0 <= k <= |list.nodes| && s == if k == 0 then null else list.nodes[k - 1]
      invariant Purging(list.items, k, n, goal)
      decreases k
    {
      list.EntryAt(k - 1);
      var over;
      over, needed, s := PurgeStep(list, s, k, n, goal);
      if over {
        return needed;
      }
      k := k - 1;
    }
    PurgingStop(list.items, k, n, goal);
    return true;
  }

  lemma FindWriteStep(q: seq<Item>, k: nat, n: string)
    requires 0 < k <= |q|
    ensures var item := q[k - 1];
            FindWrite(q, k, n) ==
              if item.Write? && item.name == n then Some(k - 1)
              else if item.Write? || (item.Create? && item.name != n) then FindWrite(q, k - 1, n)
              else None
  {
  }

  // One step of the walk of du.ey, at the entry s in position k - 1.
  method MergeStep(list: LinkedList, s: Entry, ghost k: nat, n: string, ps: seq<Patch>)
    returns (over: bool, merged: bool, p: Entry?)
    requires list.Valid() && 0 < k <= |list.nodes| && list.nodes[k - 1] == s
    requires |list.items| == |list.nodes|
    modifies list, list.repr
    ensures list.Valid() && list.repr == old(list.repr) && list.nodes == old(list.nodes)
    ensures var q := old(list.items);
            var f := FindWrite(q, k, n);
            if !over then list.items == q && f == FindWrite(q, k - 1, n)
            else merged == f.Some? && list.items == if merged then JoinInto(q, f.value, ps) else q
    ensures !over ==> p == if k == 1 then null else list.nodes[k - 2]
  {
    hide FindWrite, LinkedList.Valid;
    list.EntryAt(k - 1);
    FindWriteStep(list.items, k, n);
    over, merged, p := true, false, null;
    match s.item {
      case Write(m, v, qs) =>
        if m == n {
          list.Replace(s, k - 1, Write(n, v, qs + ps));
          merged := true;
          return;
        }
      case Create(m) =>
        if m == n {
          return;
        }
      case _ =>
        return;
    }
    over := false;
    p := list.Previous(s, k - 1);
  }

  // The walk of du.ey: join the latest pending write to n, if there is one.
  method MergeWalk(list: LinkedList, n: string, ps: seq<Patch>) returns (merged: bool)
    requires list.Valid()
    modifies list, list.repr
    ensures list.Valid() && list.repr == old(list.repr)
    ensures var q := old(list.items);
            var f := FindWrite(q, |q|, n);
            && merged == f.Some?
            && list.items == if merged then JoinInto(q, f.value, ps) else q
  {
    assert FindWrite(list.items, 0, n).None?;
    hide FindWrite, LinkedList.Valid;
    list.Sizes();
    ghost var q, k := list.items, |list.nodes|;
    var s := list.Last();
    while s != null
      invariant list.Valid() && list.repr == old(list.repr) && list.items == q
      invariant 0 <= k <= |list.nodes| == |q| && s == if k == 0 then null else list.nodes[k - 1]
      invariant FindWrite(q, |q|, n) == FindWrite(q, k, n)
      decreases k
    {
      var over;
      over, merged, s := MergeStep(list, s, k, n, ps);
      if over {
        return merged;
      }
      k := k - 1;
    }
    return false;
  }

  // dN: the queue object.  The backing store is outside the process; what it
  // holds is tracked as a ghost.
  class PersistenceQueue {
    var list: LinkedList
    var running: Option<Item>
    ghost var store: Store

    constructor (ghost st: Store)
      ensures list.Valid() && fresh(list) && list.repr == {} && State() == Queue(st, None, [])
    {
      list := new LinkedList();
      running, store := None, st;
    }

    ghost function State(): Queue
      reads this, list
    {
      Queue(store, running, list.items)
    }

    // c_ and ey: issue an operation, combined with what is pending
    method Issue(item: Item)
      requires list.Valid()
      modifies list, list.repr
      ensures list.Valid() && fresh(list.repr - old(list.repr))
      ensures State() == Step(old(State()), QueueRuns.Issue(item))
    {
      hide Purge, FindWrite, LinkedList.Valid;
      var append := true;
      match item {
        case Delete(n) => append := PurgeWalk(list, n);
        case Write(n, _, ps) =>
          var merged := MergeWalk(list, n, ps);
          append := !merged;
        case _ =>
      }
      if append {
        var e := new Entry(item);
        var ok := list.Append(e);
      }
    }

    // fL: take the first waiting item, unless one is running
    method StartNext()
      requires list.Valid()
      modifies this`running, list, list.repr
      ensures list.Valid() && list.repr == old(list.repr) && list == old(list)
      ensures State() == Step(old(State()), Start)
    {
      if running.None? && list.count > 0 {
        hide LinkedList.Valid;
        list.Sizes();
        list.EntryAt(0);
        var r := list.first;
        running := Some(r.item);
        list.OnlyPlace(0);
        var removed := list.Remove(r);
      }
    }

    // The completion of the running item, which is when it reaches the store.
    method FinishRunning()
      requires list.Valid()
      modifies this`running, this`store
      ensures list.Valid()
      ensures State() == Step(old(State()), Finish)
    {
      if running.Some? {
        store := Run(running.value, store);
        running := None;
      }
    }
  }
}
