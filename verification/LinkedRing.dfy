// The intrusive circular doubly linked list that holds the pending items.
module LinkedRing {
  import opened Coalesce
  import opened Wrappers

  function Drop<T>(s: seq<T>, k: nat): (t: seq<T>)
    requires k < |s|
    ensures |t| == |s| - 1
    ensures forall i :: 0 <= i < |t| ==> t[i] == if i < k then s[i] else s[i + 1]
  {
    s[..k] + s[k + 1..]
  }

  lemma DropKeepsDistinct<T>(s: seq<T>, k: nat)
    requires k < |s| && Distinct(s)
    ensures Distinct(Drop(s, k))
    ensures forall i :: 0 <= i < |s| - 1 ==> Drop(s, k)[i] != s[k]
  {
  }

  // An entry of the list, carrying one pending item.
  class Entry {
    var owner: LinkedList?
    var next: Entry?
    var prev: Entry?
    var item: Item

    constructor (item: Item)
      ensures owner == null && next == null && prev == null && this.item == item
      ensures fresh(this)
    {
      owner, next, prev := null, null, null;
      this.item := item;
    }
  }

  // The next and previous fields go round s and back.
  ghost predicate Linked(s: seq<Entry>)
    reads s`next, s`prev
  {
    s != [] ==>
      && s[0].prev == s[|s| - 1]
      && s[|s| - 1].next == s[0]
      && (forall i {:trigger s[i].next} :: 0 <= i < |s| - 1 ==> s[i].next == s[i + 1])
      && (forall i {:trigger s[i].prev} :: 0 < i < |s| ==> s[i].prev == s[i - 1])
  }

  // The entries belong to the list and carry these items.
  ghost predicate Carry(s: seq<Entry>, items: seq<Item>, list: LinkedList)
    reads s`owner, s`item
  {
    && |s| == |items|
    && forall i :: 0 <= i < |s| ==> s[i].owner == list && s[i].item == items[i]
  }

  // No entry but these belongs to the list.
  ghost predicate Owned(repr: set<Entry>, s: seq<Entry>, list: LinkedList)
    reads repr`owner
  {
    forall e :: e in repr && e.owner == list ==> e in s
  }

  method Own(a: Entry, ghost s: seq<Entry>, ghost items: seq<Item>, list: LinkedList, ghost repr: set<Entry>)
    requires a.owner == null && a !in s && Owned(repr, s, list) && Carry(s, items, list)
    modifies a`owner
    ensures a.owner == list && Owned(repr + {a}, s + [a], list) && Carry(s + [a], items + [a.item], list)
  {
    a.owner := list;
  }

  lemma DropOthers(s: seq<Entry>, k: nat)
    requires k < |s|
    ensures forall e :: e in s && e != s[k] ==> e in Drop(s, k)
  {
    forall e | e in s && e != s[k]
      ensures e in Drop(s, k)
    {
      var i :| 0 <= i < |s| && s[i] == e;
      assert Drop(s, k)[if i < k then i else i - 1] == e;
    }
  }

  lemma CarryDrop(s: seq<Entry>, items: seq<Item>, list: LinkedList, k: nat)
    requires k < |s| && Carry(s, items, list)
    ensures Carry(Drop(s, k), Drop(items, k), list) && s[k].owner == list
  {
  }

  lemma AppendKeepsDistinct<T>(s: seq<T>, e: T)
    requires Distinct(s)
    ensures e !in s ==> Distinct(s + [e])
  {
  }

  // The relinking in dY, into an empty list.
  method LinkAlone(e: Entry)
    modifies e`next, e`prev
    ensures Linked([e])
  {
    e.next := e;
    e.prev := e;
  }

  // The relinking in dY: put e between the last entry and the first.
  method LinkLast(a: Entry, e: Entry, ghost s: seq<Entry>, ghost repr: set<Entry>)
    requires s != [] && s[0] == a && Distinct(s) && Linked(s) && e !in s
    requires forall i :: 0 <= i < |s| ==> s[i] in repr
    modifies repr`next, repr`prev, e`next, e`prev
    ensures Linked(s + [e])
  {
    var r := a.prev;
    e.prev := r;
    e.next := a;
    r.next := e;
    a.prev := e;
  }

  // The part of dY that changes entries: enter the list, and relink.
  method Attach(e: Entry, first: Entry?, ghost s: seq<Entry>, ghost items: seq<Item>, list: LinkedList,
                ghost repr: set<Entry>)
    requires e.owner == null && e !in s && Distinct(s) && Carry(s, items, list) && Owned(repr, s, list)
    requires if s == [] then first == null else first == s[0] && Linked(s)
    requires forall i :: 0 <= i < |s| ==> s[i] in repr
    modifies repr`next, repr`prev, e
    ensures Linked(s + [e]) && Carry(s + [e], items + [old(e.item)], list) && Owned(repr + {e}, s + [e], list)
    ensures e.item == old(e.item)
  {
    hide Linked, Distinct;
    Own(e, s, items, list, repr);
    hide Carry, Owned;
    if first == null {
      LinkAlone(e);
      assert [] + [e] == [e];
    } else {
      LinkLast(first, e, s, repr);
    }
  }

  // The relinking in ea: join the neighbours of s[k] and clear its own links.
  method Splice(a: Entry, ghost s: seq<Entry>, ghost k: nat)
    requires k < |s| && s[k] == a && Distinct(s) && Linked(s)
    modifies s`next, s`prev
    ensures Linked(Drop(s, k)) && a.next == null && a.prev == null
  {
    ghost var n, t := |s|, Drop(s, k);
    a.next.prev := a.prev;
    a.prev.next := a.next;
    a.prev := null;
    a.next := null;
    forall i {:trigger t[i].next} | 0 <= i < n - 2
      ensures t[i].next == t[i + 1]
    {
      var j := if i < k then i else i + 1;
      assert t[i] == s[j] && old(s[j].next == s[j + 1] && s[j + 1].prev == s[j]);
      if j == k - 1 && k < n - 1 {
        assert old(a.next == s[k + 1] && a.prev == s[j]);
      } else {
        assert old(a.prev) != s[j];
      }
    }
    forall i {:trigger t[i].prev} | 0 < i < n - 1
      ensures t[i].prev == t[i - 1]
    {
      var j := if i < k then i else i + 1;
      assert t[i] == s[j] && old(s[j].prev == s[j - 1] && s[j - 1].next == s[j]);
      if j == k + 1 && k > 0 {
        assert old(a.prev == s[k - 1] && a.next == s[j]);
      } else {
        assert old(a.next) != s[j];
      }
    }
  }

  // The part of ea that changes entries: relink, and leave the list to t.
  method Detach(a: Entry, ghost s: seq<Entry>, ghost k: nat, ghost t: seq<Entry>, ghost rest: seq<Item>,
                ghost list: LinkedList, ghost repr: set<Entry>)
    requires k < |s| && s[k] == a && Distinct(s) && Linked(s) && t == Drop(s, k)
    requires Carry(t, rest, list) && Owned(repr, s, list) && forall i :: 0 <= i < |s| ==> s[i] in repr
    modifies repr`next, repr`prev, a`owner
    ensures Linked(t) && Carry(t, rest, list) && Owned(repr, t, list)
    ensures a.next == null && a.prev == null && a.owner == null
  {
    hide Drop, Owned, Carry, Distinct;
    Splice(a, s, k);
    hide Linked;
    Disown(a, s, k, t, rest, list, repr);
  }

  method Disown(a: Entry, ghost s: seq<Entry>, ghost k: nat, ghost t: seq<Entry>, ghost rest: seq<Item>,
                ghost list: LinkedList, ghost repr: set<Entry>)
    requires k < |s| && s[k] == a && Distinct(s) && t == Drop(s, k) && Owned(repr, s, list) && Carry(t, rest, list)
    modifies a`owner
    ensures a.owner == null && Owned(repr, t, list) && Carry(t, rest, list)
  {
    DropOthers(s, k);
    DropKeepsDistinct(s, k);
    hide Drop;
    a.owner := null;
  }

  class LinkedList {
    var count: nat
    var first: Entry?
    var changes: nat
    ghost var nodes: seq<Entry>    // the entries, front to back
    ghost var items: seq<Item>     // what they carry
    ghost var repr: set<Entry>     // every entry that was ever in the list

    constructor ()
      ensures Valid() && nodes == [] && items == [] && fresh(this) && repr == {}
    {
      count, first, changes, nodes, items, repr := 0, null, 0, [], [], {};
    }

    // The list is one ring through exactly its nodes, in order, and an entry
    // belongs to it exactly when it is one of them.
    ghost predicate Valid()
      reads this, repr
    {
      && count == |nodes| == |items|
      && (forall i :: 0 <= i < |nodes| ==> nodes[i] in repr)
      && Carry(nodes, items, this)
      && Owned(repr, nodes, this)
      && Distinct(nodes)
      && (nodes == [] ==> first == null)
      && (nodes != [] ==> first == nodes[0] && Linked(nodes))
    }

    lemma Sizes()
      requires Valid()
      ensures count == |nodes| == |items|
    {
    }

    lemma NotYetIn(e: Entry)
      requires Valid() && e.owner == null
      ensures e !in nodes && Distinct(nodes + [e])
    {
      AppendKeepsDistinct(nodes, e);
    }

    // An entry stands in one place only.
    lemma OnlyPlace(k: nat)
      requires Valid() && k < |nodes|
      ensures forall j :: 0 <= j < |nodes| && nodes[j] == nodes[k] ==> j == k
    {
    }

    // What the ring says of one entry.
    lemma EntryAt(k: nat)
      requires Valid() && k < |nodes|
      ensures |items| == |nodes| && nodes[k] in repr && nodes[k].owner == this && nodes[k].item == items[k]
      ensures count == |nodes| && first == nodes[0]
    {
    }

    // gE
    method Last() returns (e: Entry?)
      requires Valid()
      ensures e == if nodes == [] then null else nodes[|nodes| - 1]
    {
      if count == 0 {
        return null;
      }
      e := first.prev;
    }

    // gce: the entry before e, or null at the front
    method Previous(e: Entry, ghost k: nat) returns (p: Entry?)
      requires Valid() && k < |nodes| && nodes[k] == e
      ensures p == if k == 0 then null else nodes[k - 1]
    {
      if e.owner == null || e == first {
        return null;
      }
      p := e.prev;
    }

    // dY, with the first entry as the place to insert before: append e.  An
    // entry that is already in a list is refused.
    method Append(e: Entry) returns (ok: bool)
      requires Valid()
      modifies this, e, repr
      ensures Valid() && ok == (old(e.owner) == null)
      ensures nodes == if ok then old(nodes) + [e] else old(nodes)
      ensures items == if ok then old(items) + [old(e.item)] else old(items)
      ensures repr == if ok then old(repr) + {e} else old(repr)
    {
      if e.owner != null {
        return false;
      }
      hide Linked, Distinct, Carry, Owned;
      NotYetIn(e);
      ghost var s, carried, entries := nodes, items, repr;
      var front := first;
      changes := changes + 1;
      if count == 0 {
        first := e;
      }
      count := count + 1;
      nodes, items, repr := nodes + [e], items + [e.item], repr + {e};
      Attach(e, front, s, carried, this, entries);
      return true;
    }

    // ea: unlink the entry at position k
    method Unlink(a: Entry, ghost k: nat)
      requires Valid() && k < |nodes| && nodes[k] == a
      modifies this, repr
      ensures Valid() && nodes == Drop(old(nodes), k) && items == Drop(old(items), k) && repr == old(repr)
      ensures a.owner == null && a.next == null && a.prev == null
    {
      hide Owned;
      ghost var t, rest := Drop(nodes, k), Drop(items, k);
      DropKeepsDistinct(nodes, k);
      CarryDrop(nodes, items, this, k);
      var r := a.next;
      assert k == 0 && |nodes| > 1 ==> r == t[0];
      assert a == first <==> k == 0;
      assert k > 0 ==> t[0] == nodes[0];
      hide Linked, Distinct, Carry, Drop;
      ghost var before := nodes;
      changes := changes + 1;
      count := count - 1;
      nodes, items := t, rest;
      if count == 0 {
        first := null;
      } else if a == first {
        first := r;
      }
      Detach(a, before, k, t, rest, this, repr);
    }

    // B: unlink an entry if it is in the list, wherever it stands
    method Remove(e: Entry) returns (removed: bool)
      requires Valid() && (e.owner == this ==> e in repr)
      modifies this, repr
      ensures Valid() && repr == old(repr) && removed == (e in old(nodes))
      ensures !removed ==> nodes == old(nodes) && items == old(items)
      ensures removed ==>
                exists k :: 0 <= k < |old(nodes)| && old(nodes)[k] == e
                         && nodes == Drop(old(nodes), k) && items == Drop(old(items), k)
      ensures removed ==> e.owner == null && e.next == null && e.prev == null
    {
      if e.owner != this {
        return false;
      }
      assert e in nodes;
      ghost var k :| 0 <= k < |nodes| && nodes[k] == e;
      hide Linked, Owned, Carry, Drop;
      Unlink(e, k);
      return true;
    }

    // Replacing what the entry at position k carries.
    method Replace(e: Entry, ghost k: nat, item: Item)
      requires Valid() && k < |nodes| && nodes[k] == e
      modifies this, e`item
      ensures Valid() && nodes == old(nodes) && items == old(items)[k := item] && repr == old(repr)
    {
      hide Linked, Owned;
      e.item := item;
      items := items[k := item];
    }
  }
}
