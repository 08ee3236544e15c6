// That pending work is combined: whatever is issued and run, no two pending
// writes could still be joined and no pending work could still be purged.
module Combining {
  import opened Wrappers
  import opened Coalesce
  import opened QueueRuns

  // A write is not joined into an earlier one across this.
  predicate StopsJoining(item: Item, n: string) {
    item.Barrier? || item.Delete? || (item.Create? && item.name == n)
  }

  predicate IsWork(item: Item, n: string) { !item.Barrier? && item.name == n }

  predicate IsWrite(item: Item, n: string) { item.Write? && item.name == n }

  // A write issued now would be joined into one that is pending.
  predicate CanJoin(q: seq<Item>, n: string) {
    if q == [] then false
    else
      var last := q[|q| - 1];
      IsWrite(last, n) || (CanJoin(q[..|q| - 1], n) && !StopsJoining(last, n))
  }

  // A delete issued now would find work on its file.
  predicate CanPurge(q: seq<Item>, n: string) {
    if q == [] then false
    else
      var last := q[|q| - 1];
      IsWork(last, n) || (CanPurge(q[..|q| - 1], n) && !last.Barrier?)
  }

  predicate Combined(q: seq<Item>) {
    if q == [] then true
    else
      var before, last := q[..|q| - 1], q[|q| - 1];
      && Combined(before)
      && (last.Write? ==> !CanJoin(before, last.name))
      && (last.Delete? ==> !CanPurge(before, last.name))
  }

  lemma CombinedSnoc(q: seq<Item>, item: Item)
    requires Combined(q)
    requires item.Write? ==> !CanJoin(q, item.name)
    requires item.Delete? ==> !CanPurge(q, item.name)
    ensures Combined(q + [item])
  {
    assert (q + [item])[..|q|] == q;
  }

  lemma CanSnoc(q: seq<Item>, item: Item, n: string)
    ensures CanJoin(q + [item], n) <==> IsWrite(item, n) || (CanJoin(q, n) && !StopsJoining(item, n))
    ensures CanPurge(q + [item], n) <==> IsWork(item, n) || (CanPurge(q, n) && !item.Barrier?)
  {
    assert (q + [item])[..|q|] == q;
  }

  // ----- issuing

  // What the purged queue could combine, the old one could.
  ghost predicate NoMoreThan(q: seq<Item>, r: seq<Item>, n: string) {
    forall m :: m != n ==> (CanJoin(q, m) ==> CanJoin(r, m)) && (CanPurge(q, m) ==> CanPurge(r, m))
  }

  lemma NoMoreThanSnoc(q: seq<Item>, r: seq<Item>, n: string, item: Item)
    requires NoMoreThan(q, r, n)
    ensures NoMoreThan(q + [item], r + [item], n)
    ensures IsWork(item, n) && !item.Delete? ==> NoMoreThan(q, r + [item], n)
  {
    forall m | m != n
      ensures CanJoin(q + [item], m) ==> CanJoin(r + [item], m)
      ensures CanPurge(q + [item], m) ==> CanPurge(r + [item], m)
      ensures IsWork(item, n) && !item.Delete? && CanJoin(q, m) ==> CanJoin(r + [item], m)
      ensures IsWork(item, n) && !item.Delete? && CanPurge(q, m) ==> CanPurge(r + [item], m)
    {
      CanSnoc(q, item, m);
      CanSnoc(r, item, m);
      hide CanJoin, CanPurge;
    }
  }

  lemma {:induction false} PurgeCombines(q: seq<Item>, k: nat, n: string)
    requires k <= |q| && Combined(q[..k])
    ensures var p := Purge(q, k, n);
            Combined(p.0) && NoMoreThan(p.0, q[..k], n) && (p.1 ==> !CanPurge(p.0, n))
  {
    if k > 0 {
      var last := q[k - 1];
      assert q[..k][..k - 1] == q[..k - 1] && q[..k] == q[..k - 1] + [last];
      PurgeCombines(q, k - 1, n);
      var p := Purge(q, k - 1, n);
      NoMoreThanSnoc(p.0, q[..k - 1], n, last);
      NoMoreThanSnoc(q[..k - 1], q[..k - 1], n, last);
      hide Purge, NoMoreThan;
      if last.Barrier? {
      } else if last.name != n {
        CombinedSnoc(p.0, last);
        CanSnoc(p.0, last, n);
      }
    }
  }

  lemma {:induction false} FindWriteFinds(q: seq<Item>, k: nat, n: string)
    requires k <= |q|
    ensures FindWrite(q, k, n).Some? <==> CanJoin(q[..k], n)
  {
    if k > 0 {
      FindWriteFinds(q, k - 1, n);
      assert q[..k] == q[..k - 1] + [q[k - 1]];
      CanSnoc(q[..k - 1], q[k - 1], n);
      hide CanJoin;
    }
  }

  ghost predicate SameKind(a: Item, b: Item) {
    a == b || (a.Write? && b.Write? && a.name == b.name)
  }

  ghost predicate SameKinds(q: seq<Item>, r: seq<Item>) {
    |q| == |r| && forall i :: 0 <= i < |q| ==> SameKind(q[i], r[i])
  }

  lemma {:induction false} KindsCan(q: seq<Item>, r: seq<Item>, n: string)
    requires SameKinds(q, r)
    ensures CanJoin(q, n) <==> CanJoin(r, n)
    ensures CanPurge(q, n) <==> CanPurge(r, n)
  {
    if q != [] {
      KindsCan(q[..|q| - 1], r[..|r| - 1], n);
      assert SameKind(q[|q| - 1], r[|r| - 1]);
    }
  }

  lemma {:induction false} KindsCombined(q: seq<Item>, r: seq<Item>)
    requires SameKinds(q, r) && Combined(q)
    ensures Combined(r)
  {
    if q != [] {
      var before, last := q[..|q| - 1], q[|q| - 1];
      KindsCombined(before, r[..|r| - 1]);
      assert SameKind(last, r[|r| - 1]);
      if !last.Barrier? {
        KindsCan(before, r[..|r| - 1], last.name);
      }
      hide CanJoin, CanPurge;
    }
  }

  // Issuing an operation leaves nothing to combine.
  lemma EnqueueCombines(q: seq<Item>, item: Item)
    requires Combined(q)
    ensures Combined(Enqueue(q, item))
  {
    assert q[..|q|] == q;
    hide Combined, CanJoin, CanPurge;
    match item
    case Delete(n) =>
      PurgeCombines(q, |q|, n);
      if Purge(q, |q|, n).1 {
        CombinedSnoc(Purge(q, |q|, n).0, item);
      }
    case Write(n, _, ps) =>
      FindWriteFinds(q, |q|, n);
      var f := FindWrite(q, |q|, n);
      if f.Some? { KindsCombined(q, JoinInto(q, f.value, ps)); } else { CombinedSnoc(q, item); }
    case _ => CombinedSnoc(q, item);
  }

  // ----- running

  lemma {:induction false} DropFirst(q: seq<Item>)
    requires q != [] && Combined(q)
    ensures Combined(q[1..])
    ensures forall n :: (CanJoin(q[1..], n) ==> CanJoin(q, n)) && (CanPurge(q[1..], n) ==> CanPurge(q, n))
  {
    if |q| > 1 {
      var before, last := q[..|q| - 1], q[|q| - 1];
      DropFirst(before);
      assert q[1..] == before[1..] + [last] && q == before + [last];
      CombinedSnoc(before[1..], last);
      forall n
        ensures (CanJoin(q[1..], n) ==> CanJoin(q, n)) && (CanPurge(q[1..], n) ==> CanPurge(q, n))
      {
        CanSnoc(before[1..], last, n);
        CanSnoc(before, last, n);
        hide CanJoin, CanPurge;
      }
    } else {
      assert q[1..] == [];
    }
  }

  lemma {:induction false} AlwaysCombined(events: seq<Event>, s: Queue)
    requires Combined(s.waiting)
    ensures Combined(Exec(events, s).waiting)
  {
    if events != [] {
      var b, e := Exec(events[..|events| - 1], s), events[|events| - 1];
      AlwaysCombined(events[..|events| - 1], s);
      hide Combined, Enqueue;
      if e.Issue? {
        EnqueueCombines(b.waiting, e.item);
      } else if e.Start? && b.running.None? && b.waiting != [] {
        DropFirst(b.waiting);
      }
    }
  }

  // ----- what it means

  lemma {:induction false} CombinedPrefix(q: seq<Item>, k: nat)
    requires k <= |q| && Combined(q)
    ensures Combined(q[..k])
  {
    if k < |q| {
      CombinedPrefix(q[..|q| - 1], k);
      assert q[..|q| - 1][..k] == q[..k];
    } else {
      assert q[..k] == q;
    }
  }

  lemma {:induction false} JoinStopped(q: seq<Item>, i: nat, n: string) returns (m: nat)
    requires i < |q| && IsWrite(q[i], n) && !CanJoin(q, n)
    ensures i < m < |q| && StopsJoining(q[m], n)
  {
    m := |q| - 1;
    if !StopsJoining(q[m], n) {
      m := JoinStopped(q[..|q| - 1], i, n);
    }
  }

  lemma {:induction false} PurgeStopped(q: seq<Item>, i: nat, n: string) returns (m: nat)
    requires i < |q| && IsWork(q[i], n) && !CanPurge(q, n)
    ensures i < m < |q| && q[m].Barrier?
  {
    m := |q| - 1;
    if !q[m].Barrier? {
      m := PurgeStopped(q[..|q| - 1], i, n);
    }
  }

  // Between two pending pieces of work on one file that could be combined, there
  // is something that does not let them.
  ghost predicate Apart(q: seq<Item>, i: nat, j: nat, m: nat)
    requires i < j < |q|
  {
    && (q[i].Write? && q[j].Write? && q[i].name == q[j].name ==> i < m < j && StopsJoining(q[m], q[i].name))
    && (!q[i].Barrier? && q[j].Delete? && q[i].name == q[j].name ==> i < m < j && q[m].Barrier?)
  }

  lemma CombinedMeans(q: seq<Item>, i: nat, j: nat) returns (m: nat)
    requires Combined(q) && i < j < |q|
    ensures Apart(q, i, j, m)
  {
    CombinedPrefix(q, j + 1);
    var before := q[..j];
    assert q[..j + 1] == before + [q[j]] && (before + [q[j]])[..j] == before;
    m := 0;
    hide CanJoin, CanPurge;
    if q[i].Write? && q[j].Write? && q[i].name == q[j].name {
      m := JoinStopped(before, i, q[i].name);
    } else if !q[i].Barrier? && q[j].Delete? && q[i].name == q[j].name {
      m := PurgeStopped(before, i, q[i].name);
    }
  }

  // Whatever has been issued and run since the queue was empty: of two pending
  // writes to one file the later could not be joined into the earlier, for there
  // is a delete, a barrier or a create of that file between them; and no work on
  // a file waits before a pending delete of it without a barrier between them.
  lemma NothingLeftToCombine(events: seq<Event>, st: Store, i: nat, j: nat) returns (m: nat)
    requires i < j < |Exec(events, Queue(st, None, [])).waiting|
    ensures Apart(Exec(events, Queue(st, None, [])).waiting, i, j, m)
  {
    AlwaysCombined(events, Queue(st, None, []));
    m := CombinedMeans(Exec(events, Queue(st, None, [])).waiting, i, j);
  }
}
