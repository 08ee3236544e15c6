// Sorting runs by their start time: text order, and stable.
module StartOrder {
  import opened TraceCrawl

  // Text order.
  predicate Le(a: string, b: string) {
    a == "" || (b != "" && (a[0] < b[0] || (a[0] == b[0] && Le(a[1..], b[1..]))))
  }

  lemma {:induction false} LeTotal(a: string, b: string)
    ensures Le(a, b) || Le(b, a)
  {
    if a != "" && b != "" {
      LeTotal(a[1..], b[1..]);
    }
  }

  lemma {:induction false} LeTransitive(a: string, b: string, c: string)
    requires Le(a, b) && Le(b, c)
    ensures Le(a, c)
  {
    if a != "" && a[0] == b[0] && b[0] == c[0] {
      LeTransitive(a[1..], b[1..], c[1..]);
    }
  }

  lemma {:induction false} LeAntisymmetric(a: string, b: string)
    requires Le(a, b) && Le(b, a)
    ensures a == b
  {
    if a != "" {
      LeAntisymmetric(a[1..], b[1..]);
      assert a == [a[0]] + a[1..] && b == [b[0]] + b[1..];
    }
  }

  type Index = map<Id, Run>

  // A run without a start time comes first.
  function StartOf(byId: Index, id: Id): string {
    if id in byId && byId[id].start.Some? then byId[id].start.value else ""
  }

  // sorted(ids, key=start): each id goes after those that do not start later.
  function Insert(byId: Index, ids: seq<Id>, x: Id): seq<Id> {
    if ids == [] then [x]
    else
      var last := |ids| - 1;
      if Le(StartOf(byId, ids[last]), StartOf(byId, x)) then ids + [x] else Insert(byId, ids[..last], x) + [ids[last]]
  }

  function Sorted(byId: Index, ids: seq<Id>): seq<Id> {
    if ids == [] then [] else Insert(byId, Sorted(byId, ids[..|ids| - 1]), ids[|ids| - 1])
  }

  predicate Before(ids: seq<Id>, a: Id, b: Id) {
    exists j :: 0 <= j < |ids| && ids[j] == b && a in ids[..j]
  }

  // a is earlier, or starts at the same time and was listed before.
  predicate InPlace(byId: Index, ids: seq<Id>, a: Id, b: Id) {
    && Le(StartOf(byId, a), StartOf(byId, b))
    && (Le(StartOf(byId, b), StartOf(byId, a)) ==> Before(ids, a, b))
  }

  predicate IsStablySorted(byId: Index, ids: seq<Id>, result: seq<Id>) {
    && multiset(result) == multiset(ids)
    && (forall p, q :: 0 <= p < q < |result| ==> InPlace(byId, ids, result[p], result[q]))
  }

  lemma {:induction false} InsertKeepsAll(byId: Index, ids: seq<Id>, x: Id)
    ensures multiset(Insert(byId, ids, x)) == multiset(ids) + multiset{x}
  {
    if ids != [] {
      var last := |ids| - 1;
      InsertKeepsAll(byId, ids[..last], x);
      assert ids == ids[..last] + [ids[last]];
    }
  }

  predicate AllInPlace(byId: Index, all: seq<Id>, s: seq<Id>) {
    forall p, q :: 0 <= p < q < |s| ==> InPlace(byId, all, s[p], s[q])
  }

  // Everything in s may stand before x.
  predicate AllBefore(byId: Index, all: seq<Id>, s: seq<Id>, x: Id) {
    forall p :: 0 <= p < |s| ==> InPlace(byId, all, s[p], x)
  }

  lemma PrefixBefore(byId: Index, all: seq<Id>, s: seq<Id>, x: Id)
    requires AllInPlace(byId, all, s) && s != [] && Le(StartOf(byId, s[|s| - 1]), StartOf(byId, x))
    requires forall p :: 0 <= p < |s| ==> Before(all, s[p], x)
    ensures AllBefore(byId, all, s, x)
  {
    forall p | 0 <= p < |s|
      ensures InPlace(byId, all, s[p], x)
    {
      if p < |s| - 1 {
        assert InPlace(byId, all, s[p], s[|s| - 1]);
        LeTransitive(StartOf(byId, s[p]), StartOf(byId, s[|s| - 1]), StartOf(byId, x));
      }
    }
  }

  lemma AppendInPlace(byId: Index, all: seq<Id>, s: seq<Id>, x: Id)
    requires AllInPlace(byId, all, s) && AllBefore(byId, all, s, x)
    ensures AllInPlace(byId, all, s + [x])
  {
    hide InPlace;
  }

  lemma {:induction false} InsertInPlace(byId: Index, all: seq<Id>, ids: seq<Id>, x: Id)
    requires AllInPlace(byId, all, ids)
    requires forall p :: 0 <= p < |ids| ==> Before(all, ids[p], x)
    ensures AllInPlace(byId, all, Insert(byId, ids, x))
  {
    hide Before, Le, StartOf;
    if ids != [] {
      var last := |ids| - 1;
      if Le(StartOf(byId, ids[last]), StartOf(byId, x)) {
        PrefixBefore(byId, all, ids, x);
        AppendInPlace(byId, all, ids, x);
      } else {
        InsertInPlace(byId, all, ids[..last], x);
        LeTotal(StartOf(byId, ids[last]), StartOf(byId, x));
        BeforeLast(byId, all, ids, x);
        AppendInPlace(byId, all, Insert(byId, ids[..last], x), ids[last]);
      }
    }
  }

  lemma BeforeLast(byId: Index, all: seq<Id>, ids: seq<Id>, x: Id)
    requires AllInPlace(byId, all, ids) && ids != []
    requires InPlace(byId, all, x, ids[|ids| - 1])
    ensures AllBefore(byId, all, Insert(byId, ids[..|ids| - 1], x), ids[|ids| - 1])
  {
    var last := |ids| - 1;
    var s := Insert(byId, ids[..last], x);
    InsertKeepsAll(byId, ids[..last], x);
    hide InPlace, Insert;
    forall p | 0 <= p < |s|
      ensures InPlace(byId, all, s[p], ids[last])
    {
      assert s[p] in multiset(s);
      if s[p] != x {
        assert s[p] in ids[..last];
        var i :| 0 <= i < last && ids[i] == s[p];
      }
    }
  }

  lemma MoreBefore(byId: Index, ids: seq<Id>, x: Id, s: seq<Id>)
    requires AllInPlace(byId, ids, s)
    ensures AllInPlace(byId, ids + [x], s)
  {
    forall a, b | Before(ids, a, b)
      ensures Before(ids + [x], a, b)
    {
      var j :| 0 <= j < |ids| && ids[j] == b && a in ids[..j];
      assert (ids + [x])[j] == b && (ids + [x])[..j] == ids[..j];
    }
    hide Before, Le, StartOf;
  }

  lemma LastIsAfter(ids: seq<Id>, s: seq<Id>, x: Id)
    requires multiset(s) == multiset(ids)
    ensures forall p :: 0 <= p < |s| ==> Before(ids + [x], s[p], x)
  {
    var all := ids + [x];
    assert all[|ids|] == x && all[..|ids|] == ids;
    forall p | 0 <= p < |s|
      ensures Before(all, s[p], x)
    {
      assert s[p] in multiset(s);
      assert s[p] in all[..|ids|];
    }
  }

  // The sort is a stable one.
  lemma {:induction false} SortedIsStable(byId: Index, ids: seq<Id>)
    ensures IsStablySorted(byId, ids, Sorted(byId, ids))
  {
    if ids != [] {
      var shorter, x := ids[..|ids| - 1], ids[|ids| - 1];
      var s := Sorted(byId, shorter);
      assert ids == shorter + [x];
      SortedIsStable(byId, shorter);
      assert AllInPlace(byId, shorter, s);
      hide Insert, InPlace, Before;
      MoreBefore(byId, shorter, x, s);
      LastIsAfter(shorter, s, x);
      InsertInPlace(byId, ids, s, x);
      InsertKeepsAll(byId, s, x);
    }
  }
}
