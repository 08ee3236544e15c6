// One file in memory and in the block store: whatever is written, joined and
// run, once the pending writes have drained the blocks read back as the file.
module FileMirror {
  import opened Coalesce
  import opened Wrappers
  import opened BlockStore

  // The store's record of a file: its length and its 4096-byte blocks.
  datatype StoredFile = StoredFile(length: nat, blocks: Blocks)

  ghost predicate Sound(f: StoredFile) {
    forall k :: k in f.blocks ==> k % 4096 == 0 && |f.blocks[k]| == 4096
  }

  function StoredByte(f: StoredFile, pos: nat): Byte {
    var k: nat := BlockOf(pos);
    if k in f.blocks && pos - k < |f.blocks[k]| then f.blocks[k][pos - k] else 0
  }

  // What reading the blocks back gives: missing blocks are zero.
  function ReadBack(f: StoredFile): Contents {
    seq(f.length, i requires 0 <= i => StoredByte(f, i))
  }

  // Pending work as its run will see it: a write, with the bytes its view shows
  // now and the patches joined into it, or the resizing of the file.
  datatype Work = Work(base: Contents, patches: seq<Patch>) | Cut(length: nat)

  // Resizing drops the blocks after the one it cuts.
  function CutEnd(c: nat): nat { BlockOf(c) + 4096 }

  predicate Affects(w: Work, pos: nat) {
    match w
    case Work(_, ps) => CoveredBy(ps, pos)
    case Cut(c) => pos >= CutEnd(c)
  }

  function OverWork(w: Work, pos: nat, under: Byte): Byte {
    match w
    case Work(_, ps) => Over(ps, pos, under)
    case Cut(c) => if pos >= CutEnd(c) then 0 else under
  }

  function OverWorks(ws: seq<Work>, pos: nat, under: Byte): Byte {
    if ws == [] then under else OverWorks(ws[1..], pos, OverWork(ws[0], pos, under))
  }

  ghost predicate AffectedFrom(ws: seq<Work>, i: nat, pos: nat) {
    exists j :: i <= j < |ws| && Affects(ws[j], pos)
  }

  // Where nothing pending from i on changes anything, the view of i shows the
  // file.
  ghost predicate ViewFits(m: Contents, ws: seq<Work>, i: nat, pos: nat)
    requires i < |ws|
  {
    ws[i].Cut? || AffectedFrom(ws, i, pos) || ByteOf(ws[i].base, pos) == ByteOf(m, pos)
  }

  function LengthOf(w: Work): nat {
    match w
    case Work(base, ps) => Longer(|base|, ps, |ps|)
    case Cut(c) => c
  }

  function LengthAfter(f: StoredFile, ws: seq<Work>): nat {
    if ws == [] then f.length else LengthOf(ws[|ws| - 1])
  }

  // The agreement kept by every step: pending work laid over the store is the
  // file, and every view is good where it will be used.
  ghost predicate Agree(m: Contents, f: StoredFile, ws: seq<Work>) {
    && Sound(f)
    && |m| == LengthAfter(f, ws)
    && (forall pos: nat :: ByteOf(m, pos) == OverWorks(ws, pos, StoredByte(f, pos)))
    && (forall i: nat, pos: nat :: i < |ws| ==> ViewFits(m, ws, i, pos))
  }

  lemma DrainedAgreement(m: Contents, f: StoredFile)
    requires Agree(m, f, [])
    ensures ReadBack(f) == m && Sound(f) && CleanTail(f)
  {
    forall pos: nat | pos >= f.length
      ensures StoredByte(f, pos) == 0
    {
      assert ByteOf(m, pos) == OverWorks([], pos, StoredByte(f, pos));
    }
    forall i | 0 <= i < |m|
      ensures ReadBack(f)[i] == m[i]
    {
      assert ByteOf(m, i) == OverWorks([], i, StoredByte(f, i));
    }
  }

  lemma FreshAgreement(f: StoredFile)
    requires Sound(f) && CleanTail(f)
    ensures Agree(ReadBack(f), f, [])
  {
  }

  // ----- overlaying a list of works

  lemma OverOne(ps: seq<Patch>, pos: nat, a: Byte, b: Byte)
    ensures CoveredBy(ps, pos) ==> Over(ps, pos, a) == Over(ps, pos, b)
    ensures !CoveredBy(ps, pos) ==> Over(ps, pos, a) == a && Over(ps, pos, b) == b
  {
    OverCovered(ps, |ps|, pos, a, b);
    OverCovered(ps, |ps|, pos, b, a);
  }

  lemma OverOneWork(w: Work, pos: nat, a: Byte, b: Byte)
    ensures Affects(w, pos) ==> OverWork(w, pos, a) == OverWork(w, pos, b)
    ensures !Affects(w, pos) ==> OverWork(w, pos, a) == a && OverWork(w, pos, b) == b
  {
    hide Over, CoveredBy;
    if w.Work? {
      OverOne(w.patches, pos, a, b);
    }
  }

  lemma {:induction false} OverWorksAffected(ws: seq<Work>, pos: nat, a: Byte, b: Byte)
    ensures AffectedFrom(ws, 0, pos) ==> OverWorks(ws, pos, a) == OverWorks(ws, pos, b)
    ensures !AffectedFrom(ws, 0, pos) ==> OverWorks(ws, pos, a) == a
  {
    hide OverWork, Affects;
    if ws != [] {
      OverOneWork(ws[0], pos, a, b);
      OverWorksAffected(ws[1..], pos, OverWork(ws[0], pos, a), OverWork(ws[0], pos, b));
      AffectedTail(ws, pos);
    }
  }

  lemma AffectedTail(ws: seq<Work>, pos: nat)
    requires ws != []
    ensures AffectedFrom(ws, 0, pos) <==> Affects(ws[0], pos) || AffectedFrom(ws[1..], 0, pos)
  {
    hide Affects;
    if AffectedFrom(ws[1..], 0, pos) {
      var j :| 0 <= j < |ws[1..]| && Affects(ws[1..][j], pos);
      assert Affects(ws[j + 1], pos);
    }
    if AffectedFrom(ws, 0, pos) && !Affects(ws[0], pos) {
      var j :| 0 <= j < |ws| && Affects(ws[j], pos);
      assert Affects(ws[1..][j - 1], pos);
    }
  }

  lemma AffectedShift(ws: seq<Work>, i: nat, pos: nat)
    requires ws != []
    ensures AffectedFrom(ws[1..], i, pos) <==> AffectedFrom(ws, i + 1, pos)
  {
    hide Affects;
    if AffectedFrom(ws[1..], i, pos) {
      var j :| i <= j < |ws[1..]| && Affects(ws[1..][j], pos);
      assert Affects(ws[j + 1], pos);
    }
    if AffectedFrom(ws, i + 1, pos) {
      var j :| i + 1 <= j < |ws| && Affects(ws[j], pos);
      assert Affects(ws[1..][j - 1], pos);
    }
  }

  // ----- running the first pending write

  // b6: put the touched blocks, then the new length
  function Flush(f: StoredFile, blocks: Blocks, length: nat): StoredFile {
    StoredFile(length, f.blocks + blocks)
  }

  lemma FlushedByte(f: StoredFile, blocks: Blocks, length: nat, base: Contents, ps: seq<Patch>, pos: nat)
    requires Sound(f) && Touched(blocks, base, ps)
    ensures BlockOf(pos) in blocks ==> StoredByte(Flush(f, blocks, length), pos) == PatchedByte(base, ps, pos)
    ensures BlockOf(pos) !in blocks ==> StoredByte(Flush(f, blocks, length), pos) == StoredByte(f, pos)
    ensures CoveredBy(ps, pos) ==> BlockOf(pos) in blocks
  {
    hide CoveredBy;
    var k: nat := BlockOf(pos);
    if k in blocks {
      assert IsBlock(blocks[k], k, base, ps);
      assert blocks[k][pos - k] == PatchedByte(base, ps, k + (pos - k));
    }
  }

  lemma FlushedSound(f: StoredFile, blocks: Blocks, length: nat, base: Contents, ps: seq<Patch>)
    requires Sound(f) && Touched(blocks, base, ps)
    ensures Sound(Flush(f, blocks, length))
  {
    hide CoveredBy;
    BlockSizes(blocks, base, ps);
  }

  // The byte at pos after the first work has been flushed: the rest of the
  // pending work laid over it still gives the file.
  lemma RunFirstByte(m: Contents, f: StoredFile, ws: seq<Work>, blocks: Blocks, length: nat, pos: nat)
    requires Agree(m, f, ws) && ws != [] && ws[0].Work? && Touched(blocks, ws[0].base, ws[0].patches)
    ensures ByteOf(m, pos) == OverWorks(ws[1..], pos, StoredByte(Flush(f, blocks, length), pos))
  {
    hide Touched, Over, CoveredBy, AffectedFrom, LengthAfter, Sound;
    var w, u, v := ws[0], StoredByte(f, pos), StoredByte(Flush(f, blocks, length), pos);
    FlushedByte(f, blocks, length, w.base, w.patches, pos);
    assert ByteOf(m, pos) == OverWorks(ws[1..], pos, Over(w.patches, pos, u));
    if AffectedFrom(ws[1..], 0, pos) {
      OverWorksAffected(ws[1..], pos, v, Over(w.patches, pos, u));
    } else {
      OverWorksAffected(ws[1..], pos, v, v);
      OverWorksAffected(ws[1..], pos, Over(w.patches, pos, u), u);
      AffectedTail(ws, pos);
      OverOne(w.patches, pos, u, ByteOf(w.base, pos));
      if CoveredBy(w.patches, pos) {
      } else {
        assert ViewFits(m, ws, 0, pos);
      }
    }
  }

  // What the views of the later work show does not change when the first runs.
  lemma LaterViews(m: Contents, f: StoredFile, ws: seq<Work>, i: nat, pos: nat)
    requires Agree(m, f, ws) && ws != [] && i < |ws[1..]|
    ensures ViewFits(m, ws[1..], i, pos)
  {
    hide AffectedFrom;
    assert ViewFits(m, ws, i + 1, pos);
    AffectedShift(ws, i, pos);
  }

  lemma RunFirstAgrees(m: Contents, f: StoredFile, ws: seq<Work>, blocks: Blocks)
    requires Agree(m, f, ws) && ws != [] && ws[0].Work? && Touched(blocks, ws[0].base, ws[0].patches)
    ensures Agree(m, Flush(f, blocks, LengthOf(ws[0])), ws[1..])
  {
    hide Touched, OverWork, AffectedFrom;
    var g, rest := Flush(f, blocks, LengthOf(ws[0])), ws[1..];
    FlushedSound(f, blocks, LengthOf(ws[0]), ws[0].base, ws[0].patches);
    forall pos: nat
      ensures ByteOf(m, pos) == OverWorks(rest, pos, StoredByte(g, pos))
    {
      RunFirstByte(m, f, ws, blocks, LengthOf(ws[0]), pos);
    }
    forall i: nat, pos: nat | i < |rest|
      ensures ViewFits(m, rest, i, pos)
    {
      LaterViews(m, f, ws, i, pos);
    }
    assert rest != [] ==> rest[|rest| - 1] == ws[|ws| - 1];
  }

  // ----- writing

  // Patching memory may show through a view, in whole or in part.
  ghost predicate Refreshed(before: seq<Work>, after: seq<Work>, p: Patch) {
    && |before| == |after|
    && forall i :: 0 <= i < |before| ==>
         SameWork(before[i], after[i]) && (before[i].Work? ==> MayShow(before[i].base, after[i].base, p))
  }

  predicate SameWork(a: Work, b: Work) {
    if a.Cut? then b == a else b.Work? && b.patches == a.patches
  }

  ghost predicate MayShow(a: Contents, b: Contents, p: Patch) {
    && |a| == |b|
    && forall pos: nat :: ByteOf(b, pos) == ByteOf(a, pos) || ByteOf(b, pos) == PatchByte(p, pos, ByteOf(a, pos))
  }

  function JoinLast(ws: seq<Work>, p: Patch): seq<Work>
    requires ws != [] && ws[|ws| - 1].Work?
  {
    var k := |ws| - 1;
    ws[k := Work(ws[k].base, ws[k].patches + [p])]
  }

  lemma {:induction false} OverWorksSame(ws: seq<Work>, vs: seq<Work>, pos: nat, under: Byte)
    requires |ws| == |vs| && forall i :: 0 <= i < |ws| ==> SameWork(ws[i], vs[i])
    ensures OverWorks(ws, pos, under) == OverWorks(vs, pos, under)
  {
    hide Over;
    if ws != [] {
      assert SameWork(ws[0], vs[0]);
      OverWorksSame(ws[1..], vs[1..], pos, OverWork(ws[0], pos, under));
    }
  }

  lemma {:induction false} OverWorksSnoc(ws: seq<Work>, w: Work, pos: nat, under: Byte)
    ensures OverWorks(ws + [w], pos, under) == OverWork(w, pos, OverWorks(ws, pos, under))
  {
    hide OverWork;
    if ws == [] {
      assert ws + [w] == [w] && [w][1..] == [];
    } else {
      assert (ws + [w])[1..] == ws[1..] + [w];
      OverWorksSnoc(ws[1..], w, pos, OverWork(ws[0], pos, under));
    }
  }

  lemma OverWorksJoin(ws: seq<Work>, p: Patch, pos: nat, under: Byte)
    requires ws != [] && ws[|ws| - 1].Work?
    ensures OverWorks(JoinLast(ws, p), pos, under) == PatchByte(p, pos, OverWorks(ws, pos, under))
  {
    hide Over;
    var k := |ws| - 1;
    var w, front := ws[k], ws[..k];
    assert ws == front + [w] && JoinLast(ws, p) == front + [Work(w.base, w.patches + [p])];
    OverWorksSnoc(front, w, pos, under);
    OverWorksSnoc(front, Work(w.base, w.patches + [p]), pos, under);
    OverSnoc(w.patches, p, pos, OverWorks(front, pos, under));
  }

  lemma AffectedJoin(ws: seq<Work>, p: Patch, i: nat, pos: nat)
    requires i < |ws| && ws[|ws| - 1].Work?
    ensures AffectedFrom(ws, i, pos) || Covers(p, pos) ==> AffectedFrom(JoinLast(ws, p), i, pos)
  {
    var k, vs := |ws| - 1, JoinLast(ws, p);
    OverSnoc(ws[k].patches, p, pos, 0);
    assert Affects(ws[k], pos) || Covers(p, pos) ==> Affects(vs[k], pos);
    hide Affects;
    if Covers(p, pos) {
    } else if AffectedFrom(ws, i, pos) {
      var j :| i <= j < |ws| && Affects(ws[j], pos);
      assert Affects(vs[j], pos);
    }
  }

  lemma AffectedSnoc(ws: seq<Work>, w: Work, i: nat, pos: nat)
    requires i <= |ws|
    ensures AffectedFrom(ws, i, pos) || Affects(w, pos) ==> AffectedFrom(ws + [w], i, pos)
  {
    hide Affects;
    var vs := ws + [w];
    if Affects(w, pos) {
      assert Affects(vs[|ws|], pos);
    } else if AffectedFrom(ws, i, pos) {
      var j :| i <= j < |ws| && Affects(ws[j], pos);
      assert Affects(vs[j], pos);
    }
  }

  lemma AffectedSame(ws: seq<Work>, vs: seq<Work>, i: nat, pos: nat)
    requires |ws| == |vs| && forall j :: 0 <= j < |ws| ==> SameWork(ws[j], vs[j])
    ensures AffectedFrom(ws, i, pos) ==> AffectedFrom(vs, i, pos)
  {
    hide CoveredBy;
    if AffectedFrom(ws, i, pos) {
      var j :| i <= j < |ws| && Affects(ws[j], pos);
      assert SameWork(ws[j], vs[j]);
      assert Affects(vs[j], pos);
    }
  }

  lemma LongerSnoc(n: nat, ps: seq<Patch>, p: Patch)
    ensures Longer(n, ps + [p], |ps| + 1) == if EndOf(p) > Longer(n, ps, |ps|) then EndOf(p) else Longer(n, ps, |ps|)
  {
    LongerPrefix(n, ps + [p], ps, |ps|);
  }

  lemma {:induction false} LongerPrefix(n: nat, ps: seq<Patch>, qs: seq<Patch>, k: nat)
    requires k <= |ps| && k <= |qs| && forall i :: 0 <= i < k ==> ps[i] == qs[i]
    ensures Longer(n, ps, k) == Longer(n, qs, k)
  {
    if k > 0 { LongerPrefix(n, ps, qs, k - 1); }
  }

  // The file's bytes after a write, and a view off the patch.
  lemma ViewAfterWrite(m: Contents, p: Patch, a: Contents, b: Contents, pos: nat)
    requires !Covers(p, pos) && MayShow(a, b, p) && ByteOf(a, pos) == ByteOf(m, pos)
    ensures ByteOf(b, pos) == ByteOf(Apply(m, p), pos)
  {
    ApplyByte(m, p, pos);
  }

  // A write joined into the last pending work.
  lemma JoinedWriteAgrees(m: Contents, f: StoredFile, ws: seq<Work>, vs: seq<Work>, p: Patch)
    requires Agree(m, f, ws) && ws != [] && ws[|ws| - 1].Work? && Refreshed(ws, vs, p)
    ensures Agree(Apply(m, p), f, JoinLast(vs, p))
  {
    hide OverWork, Affects, AffectedFrom, Apply, Covers, Sound, MayShow;
    assert SameWork(ws[|ws| - 1], vs[|ws| - 1]);
    var m', us := Apply(m, p), JoinLast(vs, p);
    forall pos: nat
      ensures ByteOf(m', pos) == OverWorks(us, pos, StoredByte(f, pos))
    {
      ApplyByte(m, p, pos);
      OverWorksSame(ws, vs, pos, StoredByte(f, pos));
      OverWorksJoin(vs, p, pos, StoredByte(f, pos));
    }
    forall i: nat, pos: nat | i < |us|
      ensures ViewFits(m', us, i, pos)
    {
      assert ViewFits(m, ws, i, pos);
      AffectedSame(ws, vs, i, pos);
      AffectedJoin(vs, p, i, pos);
      assert SameWork(ws[i], vs[i]);
      if ws[i].Work? && !Covers(p, pos) && ByteOf(ws[i].base, pos) == ByteOf(m, pos) {
        ViewAfterWrite(m, p, ws[i].base, vs[i].base, pos);
      }
    }
    JoinedLength(m, f, ws, vs, p);
  }

  lemma JoinedLength(m: Contents, f: StoredFile, ws: seq<Work>, vs: seq<Work>, p: Patch)
    requires ws != [] && ws[|ws| - 1].Work? && Refreshed(ws, vs, p) && |m| == LengthAfter(f, ws)
    requires vs[|vs| - 1].Work?
    ensures |Apply(m, p)| == LengthAfter(f, JoinLast(vs, p))
  {
    hide Covers;
    var w := vs[|vs| - 1];
    LongerSnoc(|w.base|, w.patches, p);
    assert MayShow(ws[|ws| - 1].base, w.base, p);
  }

  // A write queued as a new work, whose view is the file before the write.
  lemma QueuedWriteAgrees(m: Contents, f: StoredFile, ws: seq<Work>, vs: seq<Work>, p: Patch, view: Contents)
    requires Agree(m, f, ws) && Refreshed(ws, vs, p) && MayShow(m, view, p)
    ensures Agree(Apply(m, p), f, vs + [Work(view, [p])])
  {
    hide OverWork, Affects, AffectedFrom, Apply, Covers, Sound, MayShow;
    var m', w := Apply(m, p), Work(view, [p]);
    var us := vs + [w];
    forall pos: nat
      ensures ByteOf(m', pos) == OverWorks(us, pos, StoredByte(f, pos))
    {
      ApplyByte(m, p, pos);
      OverWorksSame(ws, vs, pos, StoredByte(f, pos));
      OverWorksSnoc(vs, w, pos, StoredByte(f, pos));
      OneOver(view, p, pos, OverWorks(vs, pos, StoredByte(f, pos)));
    }
    forall i: nat, pos: nat | i < |us|
      ensures ViewFits(m', us, i, pos)
    {
      AffectedSnoc(vs, w, i, pos);
      OneOver(view, p, pos, 0);
      if i < |ws| {
        assert ViewFits(m, ws, i, pos) && SameWork(ws[i], vs[i]);
        AffectedSame(ws, vs, i, pos);
        if ws[i].Work? && !Covers(p, pos) && ByteOf(ws[i].base, pos) == ByteOf(m, pos) {
          ViewAfterWrite(m, p, ws[i].base, vs[i].base, pos);
        }
      } else if !Covers(p, pos) {
        ViewAfterWrite(m, p, m, view, pos);
      }
    }
    QueuedLength(m, p, view);
  }

  lemma OneOver(view: Contents, p: Patch, pos: nat, under: Byte)
    ensures OverWork(Work(view, [p]), pos, under) == PatchByte(p, pos, under)
    ensures Affects(Work(view, [p]), pos) <==> Covers(p, pos)
  {
    OverSnoc([], p, pos, under);
    assert [] + [p] == [p];
  }

  lemma QueuedLength(m: Contents, p: Patch, view: Contents)
    requires MayShow(m, view, p)
    ensures |Apply(m, p)| == LengthOf(Work(view, [p]))
  {
    LongerSnoc(|view|, [], p);
    assert [] + [p] == [p];
  }

  // ----- resizing

  // What resizing does to a buffer: zeros over the bytes cut off.
  function Cleared(c: Contents, length: nat): Patch {
    Patch(length, seq(if length < |c| then |c| - length else 0, _ => 0))
  }

  // The part of the cut block that is cut off holds only zeros.
  ghost predicate CutsZeros(m: Contents, c: nat) {
    forall pos: nat :: c <= pos < CutEnd(c) ==> ByteOf(m, pos) == 0
  }

  lemma ResizedByte(m: Contents, c: nat, pos: nat)
    ensures ByteOf(Resized(m, c), pos) == if pos < c then ByteOf(m, pos) else 0
  {
  }

  // A view while the file is cut: in the block that stays it shows the file.
  lemma ViewAfterCut(m: Contents, c: nat, a: Contents, b: Contents, pos: nat)
    requires CutsZeros(m, c) && pos < CutEnd(c) && MayShow(a, b, Cleared(m, c)) && ByteOf(a, pos) == ByteOf(m, pos)
    ensures ByteOf(b, pos) == ByteOf(Resized(m, c), pos)
  {
    ResizedByte(m, c, pos);
    hide Resized;
  }

  // A resizing queued as a new work.
  lemma CutAgrees(m: Contents, f: StoredFile, ws: seq<Work>, vs: seq<Work>, c: nat)
    requires Agree(m, f, ws) && Refreshed(ws, vs, Cleared(m, c)) && CutsZeros(m, c)
    ensures Agree(Resized(m, c), f, vs + [Cut(c)])
  {
    hide AffectedFrom, Sound, MayShow, Cleared, Resized;
    var m', us := Resized(m, c), vs + [Cut(c)];
    forall pos: nat
      ensures ByteOf(m', pos) == OverWorks(us, pos, StoredByte(f, pos))
    {
      ResizedByte(m, c, pos);
      OverWorksSame(ws, vs, pos, StoredByte(f, pos));
      OverWorksSnoc(vs, Cut(c), pos, StoredByte(f, pos));
    }
    hide OverWork, OverWorks;
    forall i: nat, pos: nat | i < |us|
      ensures ViewFits(m', us, i, pos)
    {
      AffectedSnoc(vs, Cut(c), i, pos);
      if i < |ws| {
        assert ViewFits(m, ws, i, pos) && SameWork(ws[i], vs[i]);
        AffectedSame(ws, vs, i, pos);
        if ws[i].Work? && pos < CutEnd(c) && ByteOf(ws[i].base, pos) == ByteOf(m, pos) {
          ViewAfterCut(m, c, ws[i].base, vs[i].base, pos);
        }
      }
    }
  }

  // ----- truncation

  // bf: shrinking deletes the blocks that start after the cut block, and keeps
  // all the bytes of the cut block itself.
  function Truncate(f: StoredFile, c: nat): StoredFile {
    var kept := if f.length > c then map k | k in f.blocks && k <= BlockOf(c) :: f.blocks[k] else f.blocks;
    StoredFile(c, kept)
  }

  // Every byte past the length is zero, as later growth takes for granted.
  ghost predicate CleanTail(f: StoredFile) {
    forall pos: nat :: pos >= f.length ==> StoredByte(f, pos) == 0
  }

  lemma BlockOrder(a: nat, b: nat)
    ensures BlockOf(a) <= a < BlockOf(a) + 4096
    ensures a <= b ==> BlockOf(a) <= BlockOf(b)
  {
  }

  // A truncation leaves the tail clean exactly when the cut block already held
  // nothing but zeros from the cut on.
  lemma TruncateCleanExactly(f: StoredFile, c: nat)
    requires Sound(f) && c < f.length
    ensures CleanTail(Truncate(f, c))
       <==> forall pos: nat :: c <= pos < BlockOf(c) + 4096 ==> StoredByte(f, pos) == 0
  {
    var g := Truncate(f, c);
    forall pos: nat | pos >= c
      ensures StoredByte(g, pos) == if pos < BlockOf(c) + 4096 then StoredByte(f, pos) else 0
    {
      BlockOrder(c, pos);
      BlockOrder(pos, c);
    }
  }

  // A file without pending work that is cut, in memory and in its blocks, goes on
  // agreeing with them exactly when it held only zeros from the cut to the end of
  // the cut block.
  lemma TruncateAgreesExactly(m: Contents, f: StoredFile, c: nat)
    requires Agree(m, f, []) && c < |m|
    ensures Agree(m[..c], Truncate(f, c), [])
       <==> CutsZeros(m, c)
  {
    var g := Truncate(f, c);
    forall pos: nat
      ensures ByteOf(m, pos) == StoredByte(f, pos)
      ensures StoredByte(g, pos) == if pos < BlockOf(c) + 4096 then StoredByte(f, pos) else 0
    {
      assert ByteOf(m, pos) == OverWorks([], pos, StoredByte(f, pos));
      BlockOrder(c, pos);
      BlockOrder(pos, c);
    }
    assert Agree(m[..c], g, []) <==> forall pos: nat :: ByteOf(m[..c], pos) == OverWorks([], pos, StoredByte(g, pos));
    forall pos: nat
      ensures OverWorks([], pos, StoredByte(g, pos)) == StoredByte(g, pos)
    {
    }
  }

  // No block starts after the one the length is in, or they hold zeros.
  ghost predicate TailClean(f: StoredFile) {
    forall pos: nat :: pos >= CutEnd(f.length) ==> StoredByte(f, pos) == 0
  }

  lemma CleanBeyond(f: StoredFile)
    requires CleanTail(f)
    ensures TailClean(f)
  {
    BlockOrder(f.length, f.length);
  }

  lemma TruncatedByte(f: StoredFile, c: nat, pos: nat)
    requires TailClean(f)
    ensures StoredByte(Truncate(f, c), pos) == OverWork(Cut(c), pos, StoredByte(f, pos))
  {
    BlockOrder(c, pos);
    BlockOrder(pos, c);
    BlockOrder(f.length, c);
  }

  lemma TruncatedTail(f: StoredFile, c: nat)
    requires TailClean(f)
    ensures TailClean(Truncate(f, c))
  {
    forall pos: nat | pos >= CutEnd(c)
      ensures StoredByte(Truncate(f, c), pos) == 0
    {
      TruncatedByte(f, c, pos);
    }
  }

  lemma TruncatedSound(f: StoredFile, c: nat)
    requires Sound(f)
    ensures Sound(Truncate(f, c))
  {
  }

  // Running the first pending resizing.
  lemma CutRuns(m: Contents, f: StoredFile, ws: seq<Work>)
    requires Agree(m, f, ws) && ws != [] && ws[0].Cut? && TailClean(f)
    ensures Agree(m, Truncate(f, ws[0].length), ws[1..])
  {
    hide AffectedFrom, OverWork, TailClean;
    var g, rest := Truncate(f, ws[0].length), ws[1..];
    TruncatedSound(f, ws[0].length);
    assert g.length == LengthOf(ws[0]);
    hide Truncate, Sound;
    forall pos: nat
      ensures ByteOf(m, pos) == OverWorks(rest, pos, StoredByte(g, pos))
    {
      TruncatedByte(f, ws[0].length, pos);
      assert ByteOf(m, pos) == OverWorks(ws, pos, StoredByte(f, pos));
    }
    forall i: nat, pos: nat | i < |rest|
      ensures ViewFits(m, rest, i, pos)
    {
      LaterViews(m, f, ws, i, pos);
    }
    assert rest != [] ==> rest[|rest| - 1] == ws[|ws| - 1];
  }

  // The blocks touched start no later than the one the patched file ends in.
  lemma NoBlockAfter(blocks: Blocks, base: Contents, ps: seq<Patch>, pos: nat)
    requires Touched(blocks, base, ps) && pos >= CutEnd(Longer(|base|, ps, |ps|))
    ensures BlockOf(pos) !in blocks
  {
    hide IsBlock;
    forall at: nat | CoveredBy(ps, at)
      ensures BlockOf(at) != BlockOf(pos)
    {
      var i :| 0 <= i < |ps| && Covers(ps[i], at);
      CoveredBelow(|base|, ps, |ps|, i, at);
      BlockOrder(at, Longer(|base|, ps, |ps|));
      BlockOrder(pos, pos);
    }
    hide Longer, CoveredBy;
  }

  // A flush that does not make the file shorter keeps its tail clean.
  lemma FlushedTail(f: StoredFile, blocks: Blocks, base: Contents, ps: seq<Patch>)
    requires Sound(f) && TailClean(f) && Touched(blocks, base, ps) && f.length <= Longer(|base|, ps, |ps|)
    ensures TailClean(Flush(f, blocks, Longer(|base|, ps, |ps|)))
  {
    var length := Longer(|base|, ps, |ps|);
    BlockOrder(f.length, length);
    hide Longer, IsBlock;
    forall pos: nat | pos >= CutEnd(length)
      ensures StoredByte(Flush(f, blocks, length), pos) == 0
    {
      NoBlockAfter(blocks, base, ps, pos);
      FlushedByte(f, blocks, length, base, ps, pos);
    }
    hide Touched;
  }

  // Otherwise the file and its blocks can part: two bytes cut to one, then a
  // write into the next block, and byte 1 is zero in memory but not in the store.
  lemma TruncateThenGrowParts(blocks: Blocks)
    requires Touched(blocks, [7], [Patch(4096, [9])])
    ensures var f := StoredFile(2, map[0 := [7, 7] + seq(4094, _ => 0)]);
            var g := Flush(Truncate(f, 1), blocks, 4097);
            Sound(f) && CleanTail(f) && StoredByte(g, 1) == 7 && ByteOf(Apply([7], Patch(4096, [9])), 1) == 0
  {
    var f := StoredFile(2, map[0 := [7, 7] + seq(4094, _ => 0)]);
    assert BlockOf(1) == 0;
  }
}
