// The persistence queue as a sequence of pending operations on a store from
// file names to contents: what each operation does, how a new operation is
// combined with pending ones, and why combining them changes no outcome.
module Coalesce {
  import opened Wrappers

  type Contents = seq<Byte>
  type Store = map<string, Contents>

  // One write: these bytes at this offset.
  datatype Patch = Patch(offset: nat, bytes: seq<Byte>)

  // Pending work: dg, du, ed and eg.  A write carries a view of the file's
  // buffer, which decides the bytes around its patches in the blocks it puts but
  // not what the file then contains.  Nothing is combined across a barrier: the
  // resizing of a file, or any other job.
  datatype Item =
    | Create(name: string)
    | Write(name: string, view: Contents, patches: seq<Patch>)
    | Delete(name: string)
    | Barrier(job: Job)

  datatype Job = Resizing(file: string, length: nat) | Other(effect: Store -> Store)

  // ----- what running an operation does

  // Writing past the end fills the gap with zeros.
  function Padded(c: Contents, n: nat): (r: Contents)
    ensures |r| == if |c| < n then n else |c|
  {
    if |c| < n then c + seq(n - |c|, _ => 0) else c
  }

  function Apply(c: Contents, p: Patch): (r: Contents)
    ensures |r| == if |c| < p.offset + |p.bytes| then p.offset + |p.bytes| else |c|
  {
    var d := Padded(c, p.offset + |p.bytes|);
    d[..p.offset] + p.bytes + d[p.offset + |p.bytes|..]
  }

  function ApplyTo(c: Contents, ps: seq<Patch>, k: nat): Contents
    requires k <= |ps|
  {
    if k == 0 then c else Apply(ApplyTo(c, ps, k - 1), ps[k - 1])
  }

  function ApplyAll(c: Contents, ps: seq<Patch>): Contents {
    ApplyTo(c, ps, |ps|)
  }

  function Resized(c: Contents, n: nat): (r: Contents)
    ensures |r| == n
  {
    if n <= |c| then c[..n] else Padded(c, n)
  }

  // Resizing a missing file fails and changes nothing.
  function RunJob(job: Job, st: Store): Store {
    match job
    case Resizing(n, length) => if n in st then st[n := Resized(st[n], length)] else st
    case Other(f) => f(st)
  }

  // Creating an existing file and writing a missing one fail and change nothing.
  function Run(item: Item, st: Store): Store {
    match item
    case Create(n) => if n in st then st else st[n := []]
    case Write(n, _, ps) => if n in st then st[n := ApplyAll(st[n], ps)] else st
    case Delete(n) => st - {n}
    case Barrier(job) => RunJob(job, st)
  }

  // The store after the first k operations of q.
  function RunTo(q: seq<Item>, k: nat, st: Store): Store
    requires k <= |q|
  {
    if k == 0 then st else Run(q[k - 1], RunTo(q, k - 1, st))
  }

  function RunAll(q: seq<Item>, st: Store): Store {
    RunTo(q, |q|, st)
  }

  // A create finds no file of that name.
  predicate Sensible(item: Item, st: Store) {
    item.Create? ==> item.name !in st
  }

  ghost predicate AllSensible(q: seq<Item>, st: Store) {
    forall k :: 0 <= k < |q| ==> Sensible(q[k], RunTo(q, k, st))
  }

  // ----- combining a new operation with the pending ones

  // The backward walk of ed.ey over the first k pending operations: drop
  // pending writes to n; stop at a pending delete of n, at a pending create of
  // n (dropping it), or at a barrier.  The flag says whether the delete still
  // has to be queued.
  function Purge(q: seq<Item>, k: nat, n: string): (seq<Item>, bool)
    requires k <= |q|
  {
    if k == 0 then ([], true)
    else
      var last := q[k - 1];
      match last
      case Delete(m) =>
        if m == n then (q[..k], false) else var p := Purge(q, k - 1, n); (p.0 + [last], p.1)
      case Write(m, _, _) =>
        var p := Purge(q, k - 1, n); if m == n then p else (p.0 + [last], p.1)
      case Create(m) =>
        if m == n then (q[..k - 1], false) else var p := Purge(q, k - 1, n); (p.0 + [last], p.1)
      case Barrier(_) => (q[..k], true)
  }

  // The backward walk of du.ey: past creates and writes of other files, find
  // the latest pending write to n.
  function FindWrite(q: seq<Item>, k: nat, n: string): (r: Option<nat>)
    requires k <= |q|
    ensures r.Some? ==> r.value < k && q[r.value].Write? && q[r.value].name == n
    ensures r.Some? ==> forall i :: r.value < i < k ==>
              (q[i].Write? || q[i].Create?) && q[i].name != n
  {
    if k == 0 then None
    else match q[k - 1]
      case Write(m, _, _) => if m == n then Some(k - 1) else FindWrite(q, k - 1, n)
      case Create(m) => if m == n then None else FindWrite(q, k - 1, n)
      case _ => None
  }

  // The pending write at i takes on more patches.
  function JoinInto(q: seq<Item>, i: nat, ps: seq<Patch>): seq<Item>
    requires i < |q| && q[i].Write?
  {
    q[i := Write(q[i].name, q[i].view, q[i].patches + ps)]
  }

  // ey: the queue after issuing an operation
  function Enqueue(q: seq<Item>, item: Item): seq<Item> {
    match item
    case Delete(n) =>
      var p := Purge(q, |q|, n);
      if p.1 then p.0 + [item] else p.0
    case Write(n, _, ps) =>
      (match FindWrite(q, |q|, n)
       case Some(i) => JoinInto(q, i, ps)
       case None => q + [item])
    case _ => q + [item]
  }

  // ----- running a shorter queue gives the same store

  lemma {:induction false} RunPrefix(q: seq<Item>, r: seq<Item>, k: nat, st: Store)
    requires k <= |q| && k <= |r| && forall i :: 0 <= i < k ==> q[i] == r[i]
    ensures RunTo(q, k, st) == RunTo(r, k, st)
  {
    hide Run;
    if k > 0 { RunPrefix(q, r, k - 1, st); }
  }

  lemma RunSnoc(q: seq<Item>, item: Item, st: Store)
    ensures RunAll(q + [item], st) == Run(item, RunAll(q, st))
    ensures AllSensible(q, st) && Sensible(item, RunAll(q, st)) ==> AllSensible(q + [item], st)
  {
    hide Run, Sensible;
    forall k | 0 <= k <= |q|
      ensures RunTo(q + [item], k, st) == RunTo(q, k, st)
    {
      RunPrefix(q + [item], q, k, st);
    }
  }

  lemma RunTake(q: seq<Item>, k: nat, st: Store)
    requires k <= |q|
    ensures RunAll(q[..k], st) == RunTo(q, k, st)
    ensures AllSensible(q, st) ==> AllSensible(q[..k], st)
  {
    hide Run, Sensible;
    forall i | 0 <= i <= k
      ensures RunTo(q[..k], i, st) == RunTo(q, i, st)
    {
      RunPrefix(q[..k], q, i, st);
    }
  }

  lemma {:induction false} ApplyAllConcat(c: Contents, ps: seq<Patch>, qs: seq<Patch>, k: nat)
    requires k <= |qs|
    ensures ApplyTo(c, ps + qs, |ps| + k) == ApplyTo(ApplyAll(c, ps), qs, k)
  {
    hide Apply;
    if k == 0 {
      ApplyPrefix(c, ps + qs, ps, |ps|);
    } else {
      ApplyAllConcat(c, ps, qs, k - 1);
    }
  }

  lemma {:induction false} ApplyPrefix(c: Contents, ps: seq<Patch>, qs: seq<Patch>, k: nat)
    requires k <= |ps| && k <= |qs| && forall i :: 0 <= i < k ==> ps[i] == qs[i]
    ensures ApplyTo(c, ps, k) == ApplyTo(c, qs, k)
  {
    hide Apply;
    if k > 0 { ApplyPrefix(c, ps, qs, k - 1); }
  }

  // What happens to one file does not depend on the others.
  lemma SameApart(item: Item, a: Store, b: Store, n: string)
    requires !item.Barrier? && item.name != n && a - {n} == b - {n}
    ensures Run(item, a) - {n} == Run(item, b) - {n}
    ensures Sensible(item, a) == Sensible(item, b)
    ensures n in Run(item, a) <==> n in a
  {
    hide ApplyAll;
    RunApart(item, a, n);
    RunApart(item, b, n);
    var m := item.name;
    assert m in a <==> m in a - {n};
    assert m in b <==> m in b - {n};
  }

  lemma RunApart(item: Item, st: Store, n: string)
    requires !item.Barrier? && item.name != n
    ensures Run(item, st) - {n} == Run(item, st - {n})
    ensures n in Run(item, st) <==> n in st
  {
    hide ApplyAll;
  }

  // The walk for a delete of n meets a pending create of n that will find the
  // file there: the pair is dropped, and the file stays.
  ghost predicate Survives(q: seq<Item>, k: nat, n: string, st: Store)
    requires k <= |q|
  {
    if k == 0 || q[k - 1].Barrier? || q[k - 1] == Delete(n) then false
    else if q[k - 1] == Create(n) then n in RunTo(q, k - 1, st)
    else Survives(q, k - 1, n, st)
  }

  // Dropping the file's pending work loses nothing but the file, and without a
  // delete to queue the file is gone already, unless it survives.
  ghost predicate PurgedWell(p: (seq<Item>, bool), n: string, st: Store, s: Store, survives: bool) {
    && RunAll(p.0, st) - {n} == s - {n}
    && (!p.1 ==> (n in RunAll(p.0, st) <==> survives))
  }

  // A file's own pending work changes nothing else.
  lemma OwnWork(item: Item, n: string, st: Store)
    requires !item.Barrier? && item.name == n
    ensures Run(item, st) - {n} == st - {n}
    ensures item.Delete? ==> n !in Run(item, st)
  {
    hide ApplyAll;
  }

  lemma {:induction false} PurgeMeaning(q: seq<Item>, k: nat, n: string, st: Store)
    requires k <= |q|
    ensures PurgedWell(Purge(q, k, n), n, st, RunTo(q, k, st), Survives(q, k, n, st))
  {
    hide Run;
    if k > 0 {
      var last, s := q[k - 1], RunTo(q, k - 1, st);
      if !last.Barrier? && last.name == n {
        OwnWork(last, n, s);
      }
      if last.Barrier? || (last.Delete? && last.name == n) {
        RunTake(q, k, st);
      } else if last.Create? && last.name == n {
        RunTake(q, k - 1, st);
      } else {
        PurgeMeaning(q, k - 1, n, st);
        if last.name != n {
          KeepOther(Purge(q, k - 1, n), last, n, st, s, Survives(q, k - 1, n, st));
        }
      }
    }
  }

  lemma KeepOther(p: (seq<Item>, bool), last: Item, n: string, st: Store, s: Store, survives: bool)
    requires PurgedWell(p, n, st, s, survives) && !last.Barrier? && last.name != n
    ensures PurgedWell((p.0 + [last], p.1), n, st, Run(last, s), survives)
  {
    SameApart(last, RunAll(p.0, st), s, n);
    RunSnoc(p.0, last, st);
  }

  // Creates that find no file go on finding none.
  lemma {:induction false} PurgeKeepsSensible(q: seq<Item>, k: nat, n: string, st: Store)
    requires k <= |q| && AllSensible(q, st)
    ensures AllSensible(Purge(q, k, n).0, st)
  {
    hide Run, Sensible;
    if k > 0 {
      var last := q[k - 1];
      if last.Barrier? || (last.Delete? && last.name == n) {
        RunTake(q, k, st);
      } else if last.Create? && last.name == n {
        RunTake(q, k - 1, st);
      } else {
        PurgeKeepsSensible(q, k - 1, n, st);
        if last.name != n {
          OtherStaysSensible(q, k, n, st);
        }
      }
    }
  }

  lemma OtherStaysSensible(q: seq<Item>, k: nat, n: string, st: Store)
    requires 0 < k <= |q| && !q[k - 1].Barrier? && q[k - 1].name != n && Sensible(q[k - 1], RunTo(q, k - 1, st))
    requires AllSensible(Purge(q, k - 1, n).0, st)
    ensures AllSensible(Purge(q, k - 1, n).0 + [q[k - 1]], st)
  {
    hide Run, Sensible, AllSensible, Purge;
    PurgeMeaning(q, k - 1, n, st);
    var p := Purge(q, k - 1, n).0;
    SameApart(q[k - 1], RunAll(p, st), RunTo(q, k - 1, st), n);
    RunSnoc(p, q[k - 1], st);
  }

  lemma {:induction false} SensibleNeverSurvives(q: seq<Item>, k: nat, n: string, st: Store)
    requires k <= |q| && AllSensible(q, st)
    ensures !Survives(q, k, n, st)
  {
    hide Run;
    if k > 0 {
      assert Sensible(q[k - 1], RunTo(q, k - 1, st));
      SensibleNeverSurvives(q, k - 1, n, st);
    }
  }

  // For any pending work at all: issuing a delete means deleting, unless the
  // file survives.
  lemma DeleteMeaning(q: seq<Item>, n: string, st: Store)
    ensures RunAll(Enqueue(q, Delete(n)), st) == RunAll(q, st) - {n} <==> !Survives(q, |q|, n, st)
    ensures AllSensible(q, st) ==> !Survives(q, |q|, n, st) && AllSensible(Enqueue(q, Delete(n)), st)
  {
    PurgeMeaning(q, |q|, n, st);
    var p := Purge(q, |q|, n);
    RunSnoc(p.0, Delete(n), st);
    if AllSensible(q, st) {
      PurgeKeepsSensible(q, |q|, n, st);
      SensibleNeverSurvives(q, |q|, n, st);
    }
    if p.1 {
      PurgeQueuesDelete(q, |q|, n, st);
    } else if n !in RunAll(p.0, st) {
      assert RunAll(p.0, st) == RunAll(p.0, st) - {n};
    }
  }

  lemma {:induction false} PurgeQueuesDelete(q: seq<Item>, k: nat, n: string, st: Store)
    requires k <= |q| && Purge(q, k, n).1
    ensures !Survives(q, k, n, st)
  {
    hide RunTo;
    if k > 0 && !q[k - 1].Barrier? {
      PurgeQueuesDelete(q, k - 1, n, st);
    }
  }

  // Writing n earlier than work on other files makes no difference after it.
  lemma WriteCommutes(item: Item, st: Store, n: string, v: Contents, ps: seq<Patch>)
    requires (item.Write? || item.Create?) && item.name != n
    ensures Run(item, Run(Write(n, v, ps), st)) == Run(Write(n, v, ps), Run(item, st))
    ensures Sensible(item, Run(Write(n, v, ps), st)) == Sensible(item, st)
  {
    hide ApplyAll;
  }

  lemma ApplyJoined(c: Contents, qs: seq<Patch>, ps: seq<Patch>)
    ensures ApplyAll(c, qs + ps) == ApplyAll(ApplyAll(c, qs), ps)
  {
    hide Apply;
    ApplyAllConcat(c, qs, ps, |ps|);
  }

  lemma JoinPatches(n: string, u: Contents, v: Contents, qs: seq<Patch>, ps: seq<Patch>, st: Store)
    ensures Run(Write(n, u, qs + ps), st) == Run(Write(n, v, ps), Run(Write(n, u, qs), st))
  {
    hide ApplyAll;
    if n in st {
      ApplyJoined(st[n], qs, ps);
    }
  }

  // From the joined write on, the joined queue is ahead by the new patches.
  ghost predicate Joined(q: seq<Item>, r: seq<Item>, i: nat, k: nat, n: string, ps: seq<Patch>) {
    && i < k <= |q| && q[i].Write? && q[i].name == n && r == JoinInto(q, i, ps)
    && forall j :: i < j < k ==> (q[j].Write? || q[j].Create?) && q[j].name != n
  }

  lemma {:induction false} MergeMeaning(q: seq<Item>, r: seq<Item>, i: nat, k: nat,
                                        n: string, v: Contents, ps: seq<Patch>, st: Store)
    requires Joined(q, r, i, k, n, ps)
    ensures RunTo(r, k, st) == Run(Write(n, v, ps), RunTo(q, k, st))
    ensures Sensible(r[k - 1], RunTo(r, k - 1, st)) == Sensible(q[k - 1], RunTo(q, k - 1, st))
  {
    hide Run;
    var s := RunTo(q, k - 1, st);
    if k == i + 1 {
      RunPrefix(q, r, i, st);
      assert q[i] == Write(n, q[i].view, q[i].patches);
      JoinPatches(n, q[i].view, v, q[i].patches, ps, s);
    } else {
      MergeMeaning(q, r, i, k - 1, n, v, ps, st);
      WriteCommutes(q[k - 1], s, n, v, ps);
    }
  }

  lemma {:induction false} JoinedKeepsSensible(q: seq<Item>, r: seq<Item>, i: nat, n: string, ps: seq<Patch>, st: Store)
    requires Joined(q, r, i, |q|, n, ps) && AllSensible(q, st)
    ensures AllSensible(r, st)
  {
    hide Run, Sensible, RunTo;
    forall j | 0 <= j < |r|
      ensures Sensible(r[j], RunTo(r, j, st))
    {
      if j < i {
        RunPrefix(q, r, j, st);
      } else {
        MergeMeaning(q, r, i, j + 1, n, [], ps, st);
      }
    }
  }

  // For any pending work at all: joining a write into a pending one means
  // writing last.
  lemma JoinedWriteMeaning(q: seq<Item>, i: nat, n: string, v: Contents, ps: seq<Patch>, st: Store)
    requires FindWrite(q, |q|, n) == Some(i)
    ensures var r := Enqueue(q, Write(n, v, ps));
            RunAll(r, st) == Run(Write(n, v, ps), RunAll(q, st)) && (AllSensible(q, st) ==> AllSensible(r, st))
  {
    hide Run, Sensible, RunTo, Purge, FindWrite, AllSensible;
    var r := Enqueue(q, Write(n, v, ps));
    if AllSensible(q, st) {
      JoinedKeepsSensible(q, r, i, n, ps, st);
    }
    MergeMeaning(q, r, i, |q|, n, v, ps, st);
  }

  // For any pending work and any operation: the combined queue does what the
  // old queue followed by the operation does, except exactly when the operation
  // is a delete of a file that survives.
  lemma EnqueueMeaning(q: seq<Item>, item: Item, st: Store)
    ensures RunAll(Enqueue(q, item), st) == Run(item, RunAll(q, st))
       <==> !(item.Delete? && Survives(q, |q|, item.name, st))
    ensures AllSensible(q, st) ==> !(item.Delete? && Survives(q, |q|, item.name, st))
    ensures AllSensible(q, st) && Sensible(item, RunAll(q, st)) ==> AllSensible(Enqueue(q, item), st)
  {
    RunSnoc(q, item, st);
    hide AllSensible, Survives, RunAll;
    match item
    case Delete(n) => DeleteMeaning(q, n, st);
    case Write(n, v, ps) =>
      var f := FindWrite(q, |q|, n);
      if f.Some? {
        JoinedWriteMeaning(q, f.value, n, v, ps, st);
      }
    case _ =>
  }
}
