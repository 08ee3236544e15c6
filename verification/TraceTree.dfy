// Nesting fetched runs under their parents: with parent links that do not run
// in circles, the tree holds each descendant of its root exactly once.
module TraceTree {
  import opened Wrappers
  import opened TraceCrawl
  import opened StartOrder

  datatype Tree = Node(run: Run, kids: seq<Tree>)

  type Lists = map<Id, seq<Id>>

  // ----- the two tables

  function ById(runs: seq<Run>): Index {
    if runs == [] then map[]
    else var last := runs[|runs| - 1]; ById(runs[..|runs| - 1])[last.id := last]
  }

  // The fetched parent of a fetched run.
  predicate HasParent(byId: Index, id: Id) {
    id in byId && byId[id].parent.Some? && byId[id].parent.value in byId
  }

  // Ids of the runs that name pid as their parent, in the order fetched.
  function ChildIds(runs: seq<Run>, pid: Id): seq<Id> {
    if runs == [] then []
    else
      var before, last := ChildIds(runs[..|runs| - 1], pid), runs[|runs| - 1];
      if last.parent == Some(pid) then before + [last.id] else before
  }

  predicate Unique(runs: seq<Run>) {
    forall i, j :: 0 <= i < j < |runs| ==> runs[i].id != runs[j].id
  }

  function Listed(children: Lists, pid: Id): seq<Id> {
    if pid in children then children[pid] else []
  }

  lemma {:induction false} ByIdHolds(runs: seq<Run>)
    requires Unique(runs)
    ensures forall i :: 0 <= i < |runs| ==> runs[i].id in ById(runs) && ById(runs)[runs[i].id] == runs[i]
    ensures forall id :: id in ById(runs) ==> ById(runs)[id] in runs && ById(runs)[id].id == id
  {
    if runs != [] {
      var shorter, last := runs[..|runs| - 1], runs[|runs| - 1];
      ByIdHolds(shorter);
      forall i | 0 <= i < |runs|
        ensures runs[i].id in ById(runs) && ById(runs)[runs[i].id] == runs[i]
      {
        if i < |shorter| {
          assert shorter[i] == runs[i];
        }
      }
      assert forall r :: r in shorter ==> r in runs;
    }
  }

  ghost predicate NamesParent(runs: seq<Run>, c: Id, pid: Id) {
    exists i :: 0 <= i < |runs| && IsNamed(runs[i], c, pid)
  }

  predicate IsNamed(run: Run, c: Id, pid: Id) { run.id == c && run.parent == Some(pid) }

  lemma NamesMore(runs: seq<Run>, last: Run, c: Id, pid: Id)
    ensures NamesParent(runs + [last], c, pid) <==> NamesParent(runs, c, pid) || IsNamed(last, c, pid)
  {
    var all := runs + [last];
    assert forall i :: 0 <= i < |runs| ==> all[i] == runs[i];
    assert all[|runs|] == last;
    hide IsNamed;
    if NamesParent(runs, c, pid) {
      var i :| 0 <= i < |runs| && IsNamed(runs[i], c, pid);
      assert IsNamed(all[i], c, pid);
    }
    if IsNamed(last, c, pid) {
      assert IsNamed(all[|runs|], c, pid);
    }
  }

  lemma {:induction false} ChildIdsHold(runs: seq<Run>, pid: Id)
    ensures forall c :: c in ChildIds(runs, pid) <==> NamesParent(runs, c, pid)
  {
    if runs != [] {
      var shorter, last := runs[..|runs| - 1], runs[|runs| - 1];
      ChildIdsHold(shorter, pid);
      assert runs == shorter + [last];
      forall c
        ensures c in ChildIds(runs, pid) <==> NamesParent(runs, c, pid)
      {
        NamesMore(shorter, last, c, pid);
      }
    }
  }

  lemma LastIsNew(runs: seq<Run>, pid: Id)
    requires Unique(runs) && runs != []
    ensures !NamesParent(runs[..|runs| - 1], runs[|runs| - 1].id, pid)
  {
  }

  lemma {:induction false} ChildIdsDiffer(runs: seq<Run>, pid: Id)
    requires Unique(runs)
    ensures Distinct(ChildIds(runs, pid))
  {
    if runs != [] {
      var shorter, last := runs[..|runs| - 1], runs[|runs| - 1];
      ChildIdsDiffer(shorter, pid);
      ChildIdsHold(shorter, pid);
      var ids := ChildIds(shorter, pid);
      assert last.id !in ids by { LastIsNew(runs, pid); }
    }
  }

  // ----- going up

  // id is n generations below anc.
  ghost predicate Below(byId: Index, id: Id, anc: Id, n: nat)
    decreases n
  {
    id in byId && if n == 0 then id == anc else HasParent(byId, id) && Below(byId, byId[id].parent.value, anc, n - 1)
  }

  ghost predicate Descends(byId: Index, id: Id, anc: Id) {
    exists n: nat :: Below(byId, id, anc, n)
  }

  lemma {:induction false} BelowOnce(byId: Index, id: Id, a: Id, b: Id, n: nat)
    requires Below(byId, id, a, n) && Below(byId, id, b, n)
    ensures a == b
    decreases n
  {
    if n > 0 {
      BelowOnce(byId, byId[id].parent.value, a, b, n - 1);
    }
  }

  lemma {:induction false} BelowChild(byId: Index, id: Id, kid: Id, anc: Id, n: nat)
    requires Below(byId, id, kid, n) && HasParent(byId, kid) && byId[kid].parent == Some(anc)
    ensures Below(byId, id, anc, n + 1)
    decreases n
  {
    if n > 0 {
      BelowChild(byId, byId[id].parent.value, kid, anc, n - 1);
    }
  }

  // Whatever is below anc is anc or below one of its children.
  lemma {:induction false} BelowSplits(byId: Index, id: Id, anc: Id, n: nat) returns (kid: Id)
    requires Below(byId, id, anc, n) && n > 0
    ensures HasParent(byId, kid) && byId[kid].parent == Some(anc) && Below(byId, id, kid, n - 1)
    decreases n
  {
    if n == 1 {
      kid := id;
    } else {
      kid := BelowSplits(byId, byId[id].parent.value, anc, n - 1);
    }
  }

  // Going up m generations and then the rest of the way.
  lemma {:induction false} BelowRest(byId: Index, id: Id, a: Id, b: Id, m: nat, n: nat)
    requires Below(byId, id, a, m) && Below(byId, id, b, n) && m <= n
    ensures Below(byId, a, b, n - m)
    decreases m
  {
    if m > 0 {
      BelowRest(byId, byId[id].parent.value, a, b, m - 1, n - 1);
    }
  }

  // The run is not its own ancestor. Only this is asked of the root: parents may
  // run in circles elsewhere, above the root too.
  ghost predicate NotBelowItself(byId: Index, id: Id) {
    id in byId && forall n: nat :: n > 0 ==> !Below(byId, id, id, n)
  }

  lemma KidNotBelowItself(byId: Index, kid: Id)
    requires HasParent(byId, kid) && NotBelowItself(byId, byId[kid].parent.value)
    ensures NotBelowItself(byId, kid)
  {
    var rid := byId[kid].parent.value;
    forall n: nat | n > 0
      ensures !Below(byId, kid, kid, n)
    {
      if Below(byId, kid, kid, n) {
        assert Below(byId, rid, kid, n - 1);
        BelowChild(byId, rid, kid, rid, n - 1);
      }
    }
  }

  // Two children of a run share no descendant, and the run is below neither.
  lemma SiblingsApart(byId: Index, a: Id, b: Id, id: Id)
    requires HasParent(byId, a) && HasParent(byId, b) && byId[a].parent == byId[b].parent
    requires NotBelowItself(byId, byId[a].parent.value)
    requires Descends(byId, id, a) && Descends(byId, id, b)
    ensures a == b
  {
    var m: nat :| Below(byId, id, a, m);
    var n: nat :| Below(byId, id, b, n);
    if m == n {
      BelowOnce(byId, id, a, b, m);
    } else if m < n {
      PassesParent(byId, id, a, b, m, n);
    } else {
      PassesParent(byId, id, b, a, n, m);
    }
  }

  // Going up from id past a to its sibling b would pass their parent twice.
  lemma PassesParent(byId: Index, id: Id, a: Id, b: Id, m: nat, n: nat)
    requires HasParent(byId, a) && HasParent(byId, b) && byId[a].parent == byId[b].parent
    requires Below(byId, id, a, m) && Below(byId, id, b, n) && m < n
    ensures !NotBelowItself(byId, byId[a].parent.value)
  {
    var rid := byId[a].parent.value;
    BelowRest(byId, id, a, b, m, n);
    assert Below(byId, rid, b, n - m - 1);
    BelowChild(byId, rid, b, rid, n - m - 1);
  }

  lemma ParentNotBelow(byId: Index, kid: Id)
    requires HasParent(byId, kid) && NotBelowItself(byId, byId[kid].parent.value)
    ensures !Descends(byId, byId[kid].parent.value, kid)
  {
    var rid := byId[kid].parent.value;
    if Descends(byId, rid, kid) {
      var n: nat :| Below(byId, rid, kid, n);
      BelowChild(byId, rid, kid, rid, n);
    }
  }

  // ----- the tree

  // Each list holds fetched children of its run.
  ghost predicate ListsFit(byId: Index, children: Lists) {
    forall pid, c :: pid in children && c in children[pid] ==> HasParent(byId, c) && byId[c].parent == Some(pid)
  }

  ghost function Descendants(byId: Index, rid: Id): set<Id> {
    set id | id in byId && Descends(byId, id, rid)
  }

  lemma KidHasLessBelow(byId: Index, k: Id)
    requires HasParent(byId, k) && NotBelowItself(byId, byId[k].parent.value)
    ensures NotBelowItself(byId, k)
    ensures |Descendants(byId, k)| < |Descendants(byId, byId[k].parent.value)|
  {
    var rid := byId[k].parent.value;
    KidNotBelowItself(byId, k);
    ParentNotBelow(byId, k);
    forall id | Descends(byId, id, k)
      ensures Descends(byId, id, rid)
    {
      var n: nat :| Below(byId, id, k, n);
      BelowChild(byId, id, k, rid, n);
    }
    assert Below(byId, rid, rid, 0);
    assert rid in Descendants(byId, rid) && rid !in Descendants(byId, k);
    SubsetSmaller(Descendants(byId, k), Descendants(byId, rid));
  }

  lemma KidsHaveLessBelow(byId: Index, children: Lists, rid: Id)
    requires NotBelowItself(byId, rid) && ListsFit(byId, children)
    ensures forall k :: k in Sorted(byId, Listed(children, rid)) ==>
              HasParent(byId, k) && byId[k].parent == Some(rid) && NotBelowItself(byId, k)
              && |Descendants(byId, k)| < |Descendants(byId, rid)|
  {
    SortedKeepsAll(byId, Listed(children, rid));
    hide NotBelowItself, Descendants, Sorted;
    forall k | k in Sorted(byId, Listed(children, rid))
      ensures HasParent(byId, k) && byId[k].parent == Some(rid) && NotBelowItself(byId, k)
              && |Descendants(byId, k)| < |Descendants(byId, rid)|
    {
      KidHasLessBelow(byId, k);
    }
  }

  lemma SortedKeepsAll(byId: Index, ids: seq<Id>)
    ensures forall k :: k in Sorted(byId, ids) <==> k in ids
    ensures Distinct(ids) ==> Distinct(Sorted(byId, ids))
  {
    SortedIsStable(byId, ids);
    var s := Sorted(byId, ids);
    hide Sorted, InPlace;
    forall k
      ensures k in s <==> k in ids
    {
      assert k in s <==> k in multiset(s);
      assert k in ids <==> k in multiset(ids);
    }
    if Distinct(ids) {
      OnceEach(ids);
      OnceEachBack(s);
    }
  }

  lemma {:induction false} OnceEach(ids: seq<Id>)
    requires Distinct(ids)
    ensures forall k :: multiset(ids)[k] <= 1
  {
    if ids != [] {
      var last := |ids| - 1;
      OnceEach(ids[..last]);
      assert ids == ids[..last] + [ids[last]];
      assert ids[last] !in ids[..last];
      assert ids[last] !in multiset(ids[..last]);
    }
  }

  lemma {:induction false} OnceEachBack(ids: seq<Id>)
    requires forall k :: multiset(ids)[k] <= 1
    ensures Distinct(ids)
  {
    if ids != [] {
      var shorter, x := ids[..|ids| - 1], ids[|ids| - 1];
      assert ids == shorter + [x];
      assert multiset(ids) == multiset(shorter) + multiset{x};
      forall k
        ensures multiset(shorter)[k] <= 1
      {
        assert multiset(shorter)[k] <= multiset(ids)[k];
      }
      OnceEachBack(shorter);
      assert multiset(ids)[x] == multiset(shorter)[x] + 1;
      assert x !in multiset(shorter);
      assert x !in shorter;
    }
  }

  // node
  function Build(byId: Index, children: Lists, rid: Id): (t: Tree)
    requires NotBelowItself(byId, rid) && ListsFit(byId, children)
    ensures t.run == byId[rid]
    decreases |Descendants(byId, rid)|
  {
    KidsHaveLessBelow(byId, children, rid);
    var kids := Sorted(byId, Listed(children, rid));
    Node(byId[rid], seq(|kids|, i requires 0 <= i < |kids| => assert kids[i] in kids; Build(byId, children, kids[i])))
  }

  // The ids in a tree, each run before its children.
  function Ids(t: Tree): seq<Id>
    decreases t, |t.kids| + 1
  {
    [t.run.id] + KidIds(t, |t.kids|)
  }

  // Those under the first k children.
  function KidIds(t: Tree, k: nat): seq<Id>
    requires k <= |t.kids|
    decreases t, k
  {
    if k == 0 then [] else KidIds(t, k - 1) + Ids(t.kids[k - 1])
  }

  // The lists have every child, once.
  ghost predicate ListsComplete(byId: Index, children: Lists) {
    && (forall c :: HasParent(byId, c) ==> c in Listed(children, byId[c].parent.value))
    && (forall pid :: Distinct(Listed(children, pid)))
    && (forall id :: id in byId ==> byId[id].id == id)
  }

  // The first k children of rid cover exactly what is below them, once.
  ghost predicate UnderKids(byId: Index, id: Id, kids: seq<Id>, k: nat)
    requires k <= |kids|
  {
    exists i :: 0 <= i < k && Descends(byId, id, kids[i])
  }

  ghost predicate HoldsOnce(byId: Index, t: Tree, rid: Id) {
    Distinct(Ids(t)) && forall id :: id in Ids(t) <==> Descends(byId, id, rid)
  }

  lemma JoinOnce(a: seq<Id>, b: seq<Id>)
    requires Distinct(a) && Distinct(b) && (forall id :: id in a ==> id !in b)
    ensures Distinct(a + b)
  {
    assert forall j :: 0 <= j < |b| ==> b[j] in b;
    assert forall i :: 0 <= i < |a| ==> a[i] in a;
  }

  // Children of one run, each the root of a subtree that holds it once.
  ghost predicate AreSiblings(byId: Index, t: Tree, kids: seq<Id>) {
    && |kids| == |t.kids| && Distinct(kids)
    && (forall i :: 0 <= i < |kids| ==> HasParent(byId, kids[i]) && byId[kids[i]].parent == Some(t.run.id))
    && (forall i :: 0 <= i < |kids| ==> HoldsOnce(byId, t.kids[i], kids[i]))
  }

  lemma {:induction false} KidIdsHold(byId: Index, t: Tree, kids: seq<Id>, k: nat)
    requires NotBelowItself(byId, t.run.id) && AreSiblings(byId, t, kids) && k <= |kids|
    ensures Distinct(KidIds(t, k))
    ensures forall id :: id in KidIds(t, k) <==> UnderKids(byId, id, kids, k)
    decreases k
  {
    if k > 0 {
      KidIdsHold(byId, t, kids, k - 1);
      assert HoldsOnce(byId, t.kids[k - 1], kids[k - 1]);
      var a, b := KidIds(t, k - 1), Ids(t.kids[k - 1]);
      assert KidIds(t, k) == a + b;
      KidApart(byId, t, kids, k - 1);
      forall id | id in a
        ensures id !in b
      {
        assert UnderKids(byId, id, kids, k - 1);
      }
      hide KidIds, Ids, AreSiblings, Descends, NotBelowItself;
      JoinOnce(a, b);
      forall id
        ensures id in a + b <==> UnderKids(byId, id, kids, k)
      {
        MoreUnder(byId, id, kids, k);
      }
    }
  }

  lemma MoreUnder(byId: Index, id: Id, kids: seq<Id>, k: nat)
    requires 0 < k <= |kids|
    ensures UnderKids(byId, id, kids, k) <==> UnderKids(byId, id, kids, k - 1) || Descends(byId, id, kids[k - 1])
  {
    hide Descends;
  }

  lemma KidApart(byId: Index, t: Tree, kids: seq<Id>, k: nat)
    requires NotBelowItself(byId, t.run.id) && AreSiblings(byId, t, kids) && k < |kids|
    ensures forall id :: UnderKids(byId, id, kids, k) ==> !Descends(byId, id, kids[k])
  {
    forall id | UnderKids(byId, id, kids, k)
      ensures !Descends(byId, id, kids[k])
    {
      var i :| 0 <= i < k && Descends(byId, id, kids[i]);
      assert kids[i] != kids[k];
      hide Descends, NotBelowItself;
      if Descends(byId, id, kids[k]) {
        SiblingsApart(byId, kids[i], kids[k], id);
      }
    }
  }

  // What is below rid is rid or below one of its children.
  lemma DescendsSplits(byId: Index, children: Lists, rid: Id, id: Id)
    requires NotBelowItself(byId, rid) && ListsFit(byId, children) && ListsComplete(byId, children)
    ensures var kids := Sorted(byId, Listed(children, rid));
            Descends(byId, id, rid) <==> id == rid || UnderKids(byId, id, kids, |kids|)
  {
    var kids := Sorted(byId, Listed(children, rid));
    SortedKeepsAll(byId, Listed(children, rid));
    KidsHaveLessBelow(byId, children, rid);
    hide Sorted, NotBelowItself, Descendants, Distinct;
    if Descends(byId, id, rid) && id != rid {
      var n: nat :| Below(byId, id, rid, n);
      var kid := BelowSplits(byId, id, rid, n);
      assert kid in kids;
      var i :| 0 <= i < |kids| && kids[i] == kid;
      assert Descends(byId, id, kids[i]);
    }
    if UnderKids(byId, id, kids, |kids|) {
      var i :| 0 <= i < |kids| && Descends(byId, id, kids[i]);
      assert kids[i] in kids;
      var n: nat :| Below(byId, id, kids[i], n);
      BelowChild(byId, id, kids[i], rid, n);
    }
    assert Below(byId, rid, rid, 0);
  }

  // The tree holds its root and every descendant of it, exactly once.
  lemma {:induction false} BuildHolds(byId: Index, children: Lists, rid: Id)
    requires NotBelowItself(byId, rid) && ListsFit(byId, children) && ListsComplete(byId, children)
    ensures HoldsOnce(byId, Build(byId, children, rid), rid)
    decreases |Descendants(byId, rid)|
  {
    var t := Build(byId, children, rid);
    var kids := Sorted(byId, Listed(children, rid));
    KidsHaveLessBelow(byId, children, rid);
    SortedKeepsAll(byId, Listed(children, rid));
    assert Distinct(Listed(children, rid));
    forall i | 0 <= i < |kids|
      ensures HasParent(byId, kids[i]) && byId[kids[i]].parent == Some(rid) && HoldsOnce(byId, t.kids[i], kids[i])
    {
      assert kids[i] in kids;
      BuildHolds(byId, children, kids[i]);
    }
    forall id
      ensures Descends(byId, id, rid) <==> id == rid || UnderKids(byId, id, kids, |kids|)
    {
      DescendsSplits(byId, children, rid, id);
    }
    hide Build, HoldsOnce, Sorted, NotBelowItself, ListsFit, ListsComplete, Descendants;
    RootHolds(byId, t, kids, rid);
  }

  lemma RootHolds(byId: Index, t: Tree, kids: seq<Id>, rid: Id)
    requires NotBelowItself(byId, rid) && AreSiblings(byId, t, kids) && t.run.id == rid
    requires forall id :: Descends(byId, id, rid) <==> id == rid || UnderKids(byId, id, kids, |kids|)
    ensures HoldsOnce(byId, t, rid)
  {
    KidIdsHold(byId, t, kids, |kids|);
    assert !UnderKids(byId, rid, kids, |kids|) by {
      if UnderKids(byId, rid, kids, |kids|) {
        var i :| 0 <= i < |kids| && Descends(byId, rid, kids[i]);
        ParentNotBelow(byId, kids[i]);
      }
    }
    assert Ids(t) == [rid] + KidIds(t, |kids|);
    hide KidIds, Ids, UnderKids, Descends, AreSiblings, NotBelowItself;
    JoinOnce([rid], KidIds(t, |kids|));
  }

  // ----- siblings in order, under their own parent

  function KidRoots(t: Tree): seq<Id> { seq(|t.kids|, i requires 0 <= i < |t.kids| => t.kids[i].run.id) }

  predicate WellNested(runs: seq<Run>, t: Tree) {
    && t.run in runs
    && IsStablySorted(ById(runs), ChildIds(runs, t.run.id), KidRoots(t))
    && forall i :: 0 <= i < |t.kids| ==> WellNested(runs, t.kids[i])
  }

  lemma {:induction false} BuildNested(runs: seq<Run>, children: Lists, rid: Id)
    requires Unique(runs) && NotBelowItself(ById(runs), rid) && ListsFit(ById(runs), children)
    requires forall pid :: pid in ById(runs) ==> Listed(children, pid) == ChildIds(runs, pid)
    ensures WellNested(runs, Build(ById(runs), children, rid))
    decreases |Descendants(ById(runs), rid)|
  {
    var byId := ById(runs);
    ByIdHolds(runs);
    var t := Build(byId, children, rid);
    var kids := Sorted(byId, Listed(children, rid));
    KidsHaveLessBelow(byId, children, rid);
    SortedIsStable(byId, Listed(children, rid));
    assert KidRoots(t) == kids by {
      assert forall i :: 0 <= i < |kids| ==> kids[i] in kids;
    }
    forall i | 0 <= i < |t.kids|
      ensures WellNested(runs, t.kids[i])
    {
      assert kids[i] in kids;
      BuildNested(runs, children, kids[i]);
    }
    hide IsStablySorted, Sorted, NotBelowItself, ListsFit, ById, ChildIds, Descendants;
  }

  lemma ChildIdsNext(runs: seq<Run>, i: nat)
    requires i < |runs|
    ensures forall pid :: ChildIds(runs[..i + 1], pid) ==
              if runs[i].parent == Some(pid) then ChildIds(runs[..i], pid) + [runs[i].id] else ChildIds(runs[..i], pid)
  {
    assert runs[..i + 1][..i] == runs[..i];
  }

  // The condition is exact: no tree nests a run that is its own ancestor.
  lemma {:induction false} LoopHasNoTree(runs: seq<Run>, t: Tree)
    requires Unique(runs) && WellNested(runs, t)
    ensures NotBelowItself(ById(runs), t.run.id)
    decreases t
  {
    var byId, rid := ById(runs), t.run.id;
    ByIdHolds(runs);
    var at :| 0 <= at < |runs| && runs[at] == t.run;
    hide ById;
    forall n: nat | n > 0
      ensures !Below(byId, rid, rid, n)
    {
      if Below(byId, rid, rid, n) {
        var kid := BelowSplits(byId, rid, rid, n);
        LoopGoesOn(byId, rid, kid, n);
        var i := KidIsInTree(runs, t, kid);
        LoopHasNoTree(runs, t.kids[i]);
      }
    }
  }

  lemma LoopGoesOn(byId: Index, rid: Id, kid: Id, n: nat)
    requires n > 0 && HasParent(byId, kid) && byId[kid].parent == Some(rid) && Below(byId, rid, kid, n - 1)
    ensures Below(byId, kid, kid, n)
  {
  }

  lemma KidIsInTree(runs: seq<Run>, t: Tree, kid: Id) returns (i: nat)
    requires Unique(runs) && WellNested(runs, t)
    requires HasParent(ById(runs), kid) && ById(runs)[kid].parent == Some(t.run.id)
    ensures i < |t.kids| && t.kids[i].run.id == kid
  {
    ByIdHolds(runs);
    ChildIdsHold(runs, t.run.id);
    var j :| 0 <= j < |runs| && runs[j] == ById(runs)[kid];
    assert IsNamed(runs[j], kid, t.run.id);
    hide ById, ChildIds, InPlace;
    var all, roots := ChildIds(runs, t.run.id), KidRoots(t);
    assert kid in all && kid in multiset(all) && multiset(all) == multiset(roots);
    assert kid in roots;
    i :| 0 <= i < |roots| && roots[i] == kid;
  }

  // The children lists the loop fills.
  predicate AreFilled(runs: seq<Run>, children: Lists) {
    && children.Keys <= ById(runs).Keys
    && forall pid :: pid in ById(runs) ==> Listed(children, pid) == ChildIds(runs, pid)
  }

  // The two tables build_tree fills.
  method FillById(runs: seq<Run>) returns (byId: Index)
    ensures byId == ById(runs)
  {
    byId := map[];
    for i := 0 to |runs|
      invariant byId == ById(runs[..i])
    {
      assert runs[..i + 1][..i] == runs[..i];
      byId := byId[runs[i].id := runs[i]];
    }
    assert runs[..|runs|] == runs;
  }

  method FillChildren(byId: Index, runs: seq<Run>) returns (children: Lists)
    requires byId == ById(runs)
    ensures AreFilled(runs, children)
  {
    NoChildIds();
    hide ById, ChildIds;
    children := map[];
    for i := 0 to |runs|
      invariant children.Keys <= byId.Keys
      invariant forall pid :: pid in byId ==> Listed(children, pid) == ChildIds(runs[..i], pid)
    {
      ChildIdsNext(runs, i);
      var r := runs[i];
      if r.parent.Some? && r.parent.value in byId {
        var pid := r.parent.value;
        children := children[pid := Listed(children, pid) + [r.id]];
      }
    }
    assert runs[..|runs|] == runs;
  }

  lemma NoChildIds()
    ensures forall pid :: ChildIds([], pid) == []
  {
  }

  // build_tree: an unknown root is a KeyError, and one that is its own ancestor
  // would have the recursion go on for ever
  method BuildTree(rootId: Id, runs: seq<Run>) returns (built: Result<Tree>)
    requires Unique(runs) && (rootId in ById(runs) ==> NotBelowItself(ById(runs), rootId))
    ensures built.Ok? <==> rootId in ById(runs)
    ensures built.Ok? ==>
              var t := built.value;
              t.run.id == rootId && HoldsOnce(ById(runs), t, rootId) && WellNested(runs, t)
  {
    var byId := FillById(runs);
    var children := FillChildren(byId, runs);
    if rootId !in byId {
      return Err("KeyError");
    }
    FilledFit(runs, children);
    FilledComplete(runs, children);
    ByIdHolds(runs);
    BuildHolds(byId, children, rootId);
    BuildNested(runs, children, rootId);
    hide NotBelowItself, HoldsOnce, WellNested, Unique, ById, ListsFit, ListsComplete, Build;
    built := Ok(Build(byId, children, rootId));
  }

  lemma ListedAreChildren(runs: seq<Run>, children: Lists, pid: Id, c: Id)
    requires Unique(runs) && pid in ById(runs) && Listed(children, pid) == ChildIds(runs, pid)
    ensures c in Listed(children, pid) <==> HasParent(ById(runs), c) && ById(runs)[c].parent == Some(pid)
  {
    ByIdHolds(runs);
    ChildIdsHold(runs, pid);
    var byId := ById(runs);
    hide ById, ChildIds;
    if c in Listed(children, pid) {
      var i :| 0 <= i < |runs| && IsNamed(runs[i], c, pid);
    }
    if HasParent(byId, c) && byId[c].parent == Some(pid) {
      var i :| 0 <= i < |runs| && runs[i] == byId[c];
      assert IsNamed(runs[i], c, pid);
    }
  }

  lemma FilledFit(runs: seq<Run>, children: Lists)
    requires Unique(runs) && AreFilled(runs, children)
    ensures ListsFit(ById(runs), children)
  {
    hide ById, ChildIds, Unique;
    forall pid, c | pid in children && c in children[pid]
      ensures HasParent(ById(runs), c) && ById(runs)[c].parent == Some(pid)
    {
      ListedAreChildren(runs, children, pid, c);
    }
  }

  lemma FilledComplete(runs: seq<Run>, children: Lists)
    requires Unique(runs) && AreFilled(runs, children)
    ensures ListsComplete(ById(runs), children)
  {
    var byId := ById(runs);
    ByIdHolds(runs);
    hide ById, ChildIds, Unique, Distinct;
    forall c | HasParent(byId, c)
      ensures c in Listed(children, byId[c].parent.value)
    {
      ListedAreChildren(runs, children, byId[c].parent.value, c);
    }
    forall pid
      ensures Distinct(Listed(children, pid))
    {
      ListedDiffer(runs, children, pid);
    }
  }

  lemma ListedDiffer(runs: seq<Run>, children: Lists, pid: Id)
    requires Unique(runs) && AreFilled(runs, children)
    ensures Distinct(Listed(children, pid))
  {
    ChildIdsDiffer(runs, pid);
    hide ById, ChildIds, Unique;
  }
}
