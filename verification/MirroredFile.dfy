// The mirrored file as an object: an in-place buffer, pending writes holding
// live views of it, and the stored blocks.
module MirroredFiles {
  import opened Coalesce
  import opened Wrappers
  import opened BlockStore
  import opened FileMirror

  // du: a view of the buffer's array as long as the file was, and the patches
  // joined so far.  The array may since have been written to or replaced.
  datatype Pending = Pending(data: array<Byte>, length: nat, patches: seq<Patch>)

  // What a view shows now.
  ghost function ViewOf(p: Pending): Contents
    reads p.data
  {
    if p.length <= p.data.Length then p.data[..p.length] else []
  }

  ghost function Arrays(ps: seq<Pending>): set<object> {
    set p | p in ps :: p.data
  }

  // The pending work as its runs would see it now.
  ghost function Works(ps: seq<Pending>): (ws: seq<Work>)
    reads Arrays(ps)
    ensures |ws| == |ps|
    ensures forall i :: 0 <= i < |ws| ==> ws[i] == Work(ViewOf(ps[i]), ps[i].patches)
  {
    seq(|ps|, i requires 0 <= i < |ps| reads Arrays(ps) => Work(ViewOf(ps[i]), ps[i].patches))
  }

  // A view of an array that a patch was written into, or not written at all.
  lemma PatchedView(a: seq<Byte>, b: seq<Byte>, n: nat, p: Patch)
    requires |a| == |b| && n <= |a|
    requires forall i :: 0 <= i < |a| ==> b[i] == a[i] || b[i] == PatchByte(p, i, a[i])
    ensures MayShow(a[..n], b[..n], p)
  {
  }

  // du.U: the blocks touched by the joined patches, over what the view shows
  method CollectBlocks(base: Contents, ps: seq<Patch>) returns (w: BlockWriter)
    ensures Touched(w.blocks, base, ps) && w.length == Longer(|base|, ps, |ps|)
  {
    w := new BlockWriter(base);
    EmptyTouched(base);
    hide Touched;
    var o := 0;
    while o < |ps|
      invariant 0 <= o <= |ps|
      invariant w.base == base && Touched(w.blocks, base, ps[..o])
      invariant w.length == Longer(|base|, ps, o)
    {
      w.AddWrite(ps[o].offset, ps[o].bytes, ps[..o]);
      assert ps[..o + 1] == ps[..o] + [Patch(ps[o].offset, ps[o].bytes)];
      o := o + 1;
    }
    assert ps[..o] == ps;
  }

  lemma EmptyTouched(base: Contents)
    ensures Touched(map[], base, [])
  {
  }

  class MirroredFile {
    var buffer: GrowBuffer
    var stored: StoredFile
    var pending: seq<Pending>

    // bS: load the file from its stored blocks
    constructor (f: StoredFile)
      requires Sound(f) && CleanTail(f)
      ensures Valid() && fresh(buffer) && fresh(buffer.data)
      ensures Contents() == ReadBack(f) && pending == [] && stored == f
    {
      buffer := new GrowBuffer();
      stored, pending := f, [];
      new;
      buffer.SetLength(f.length);
      FreshAgreement(f);
      buffer.SetRange(0, ReadBack(f));
      assert buffer.Contents() == ReadBack(f);
      assert Works([]) == [];
    }

    ghost function Contents(): Contents
      requires buffer.len <= buffer.data.Length
      reads this, buffer, buffer.data
    {
      buffer.Contents()
    }

    ghost predicate Valid()
      reads this, buffer, buffer.data, Arrays(pending)
    {
      buffer.Valid() && Agree(Contents(), stored, Works(pending))
    }

    // The write to memory, and what it does to the views.
    method WriteThrough(p: Patch)
      requires buffer.Valid()
      modifies buffer, buffer.data
      ensures buffer.Valid() && Contents() == Apply(old(Contents()), p)
      ensures buffer.data == old(buffer.data) || fresh(buffer.data)
      ensures Refreshed(old(Works(pending)), Works(pending), p)
      ensures MayShow(old(Contents()), ViewOf(Pending(old(buffer.data), old(buffer.len), [p])), p)
    {
      ghost var ws, d, n, before := Works(pending), buffer.data, buffer.len, buffer.data[..];
      buffer.WriteAt(p.offset, p.bytes);
      assert Patch(p.offset, p.bytes) == p;
      PatchedView(before, d[..], n, p);
      assert before[..n] == old(d[..n]) && d[..][..n] == d[..n];
      forall i | 0 <= i < |ws|
        ensures MayShow(ws[i].base, ViewOf(pending[i]), p)
      {
        var v := pending[i];
        if v.data == d && v.length <= d.Length {
          PatchedView(before, d[..], v.length, p);
          assert before[..v.length] == ws[i].base && d[..][..v.length] == ViewOf(v);
        } else {
          assert ViewOf(v) == ws[i].base;
        }
      }
    }

    // jn.bg: write through to memory and queue the block write.  Whether it
    // joins the last pending write depends on the other files' operations in
    // between, so both choices are allowed.
    method WriteAt(p: Patch, join: bool)
      requires Valid()
      modifies this, buffer, buffer.data
      ensures Valid() && buffer == old(buffer)
      ensures buffer.data == old(buffer.data) || fresh(buffer.data)
      ensures Contents() == Apply(old(Contents()), p)
      ensures stored == old(stored)
    {
      hide Agree, Apply, Refreshed, MayShow;
      ghost var ws, m := Works(pending), Contents();
      var view := Pending(buffer.data, buffer.len, [p]);
      WriteThrough(p);
      ghost var vs := Works(pending);
      if join && pending != [] {
        var k := |pending| - 1;
        pending := pending[k := Pending(pending[k].data, pending[k].length, pending[k].patches + [p])];
        JoinedWriteAgrees(m, stored, ws, vs, p);
        assert Works(pending) == JoinLast(vs, p);
      } else {
        pending := pending + [view];
        QueuedWriteAgrees(m, stored, ws, vs, p, ViewOf(view));
        assert Works(pending) == vs + [Work(ViewOf(view), [p])];
      }
    }

    // du.U: run the first pending write against the store
    method RunFirst()
      requires Valid() && pending != []
      modifies this`pending, this`stored
      ensures Valid() && pending == old(pending)[1..]
      ensures Contents() == old(Contents())
    {
      hide Agree, Touched;
      var q := pending[0];
      ghost var ws := Works(pending);
      var base := if q.length <= q.data.Length then q.data[..q.length] else [];
      var w := CollectBlocks(base, q.patches);
      RunFirstAgrees(Contents(), stored, ws, w.blocks);
      stored := Flush(stored, w.blocks, w.length);
      pending := pending[1..];
      assert Works(pending) == ws[1..];
    }
  }

  // ----- whole histories

  datatype Act = Put(patch: Patch, join: bool) | RunOne

  // The patches a history writes, in order.
  function Patches(acts: seq<Act>): seq<Patch> {
    if acts == [] then []
    else
      var before := Patches(acts[..|acts| - 1]);
      if acts[|acts| - 1].Put? then before + [acts[|acts| - 1].patch] else before
  }

  lemma ApplySnoc(c: Contents, ps: seq<Patch>, p: Patch)
    ensures ApplyAll(c, ps + [p]) == Apply(ApplyAll(c, ps), p)
  {
    hide Apply;
    ApplyPrefix(c, ps + [p], ps, |ps|);
  }

  // Load a file, carry out any history of writes and runs, drain what is left:
  // the store then reads back as the file with every write applied in order.
  method RunHistory(f: StoredFile, acts: seq<Act>) returns (file: MirroredFile)
    requires Sound(f) && CleanTail(f)
    ensures file.pending == [] && file.buffer.Valid()
    ensures file.Contents() == ReadBack(file.stored) == ApplyAll(ReadBack(f), Patches(acts))
    ensures Sound(file.stored) && CleanTail(file.stored)
  {
    hide Apply, ApplyAll, ReadBack, Sound, StoredByte, Agree, CleanTail;
    file := new MirroredFile(f);
    ghost var start := ReadBack(f);
    NoPatches(start);
    var i := 0;
    while i < |acts|
      invariant 0 <= i <= |acts|
      invariant fresh(file) && fresh(file.buffer) && fresh(file.buffer.data) && file.Valid()
      invariant file.Contents() == ApplyAll(start, Patches(acts[..i]))
    {
      assert acts[..i + 1][..i] == acts[..i];
      match acts[i] {
        case Put(p, join) =>
          ApplySnoc(start, Patches(acts[..i]), p);
          file.WriteAt(p, join);
        case RunOne =>
          if file.pending != [] {
            file.RunFirst();
          }
      }
      i := i + 1;
    }
    assert acts[..i] == acts;
    while file.pending != []
      invariant fresh(file) && file.Valid()
      invariant file.Contents() == ApplyAll(start, Patches(acts))
      decreases |file.pending|
    {
      file.RunFirst();
    }
    assert Works(file.pending) == [];
    DrainedAgreement(file.Contents(), file.stored);
  }

  lemma NoPatches(c: Contents)
    ensures ApplyAll(c, Patches([])) == c
  {
  }
}
