// A file in memory, in a buffer that grows in place, and its copy in a store of
// 4096-byte blocks, brought up to date by pending block writes.
module BlockStore {
  import opened Coalesce
  import opened Wrappers

  // ----- overlaying patches on a byte

  predicate Covers(p: Patch, pos: nat) {
    p.offset <= pos < p.offset + |p.bytes|
  }

  // The byte at pos after the first k patches, over the byte already there.
  function OverTo(ps: seq<Patch>, k: nat, pos: nat, under: Byte): Byte
    requires k <= |ps|
  {
    if k == 0 then under
    else if Covers(ps[k - 1], pos) then ps[k - 1].bytes[pos - ps[k - 1].offset]
    else OverTo(ps, k - 1, pos, under)
  }

  function Over(ps: seq<Patch>, pos: nat, under: Byte): Byte {
    OverTo(ps, |ps|, pos, under)
  }

  predicate CoveredBy(ps: seq<Patch>, pos: nat) {
    exists i :: 0 <= i < |ps| && Covers(ps[i], pos)
  }

  function ByteOf(c: Contents, pos: nat): Byte {
    if pos < |c| then c[pos] else 0
  }

  lemma {:induction false} OverPrefix(ps: seq<Patch>, qs: seq<Patch>, k: nat, pos: nat, under: Byte)
    requires k <= |ps| && k <= |qs| && forall i :: 0 <= i < k ==> ps[i] == qs[i]
    ensures OverTo(ps, k, pos, under) == OverTo(qs, k, pos, under)
  {
    if k > 0 { OverPrefix(ps, qs, k - 1, pos, under); }
  }

  function PatchByte(p: Patch, pos: nat, under: Byte): Byte {
    if Covers(p, pos) then p.bytes[pos - p.offset] else under
  }

  lemma OverSnoc(ps: seq<Patch>, p: Patch, pos: nat, under: Byte)
    ensures Over(ps + [p], pos, under) == PatchByte(p, pos, Over(ps, pos, under))
    ensures CoveredBy(ps + [p], pos) <==> CoveredBy(ps, pos) || Covers(p, pos)
  {
    OverPrefix(ps + [p], ps, |ps|, pos, under);
    if CoveredBy(ps, pos) {
      var i :| 0 <= i < |ps| && Covers(ps[i], pos);
      assert Covers((ps + [p])[i], pos);
    }
    assert (ps + [p])[|ps|] == p;
  }

  lemma {:induction false} OverCovered(ps: seq<Patch>, k: nat, pos: nat, a: Byte, b: Byte)
    requires k <= |ps|
    ensures (exists i :: 0 <= i < k && Covers(ps[i], pos)) ==> OverTo(ps, k, pos, a) == OverTo(ps, k, pos, b)
    ensures !(exists i :: 0 <= i < k && Covers(ps[i], pos)) ==> OverTo(ps, k, pos, a) == a
  {
    if k > 0 {
      OverCovered(ps, k - 1, pos, a, b);
    }
  }

  // Applying a patch to contents is overlaying it on every byte.
  lemma ApplyByte(c: Contents, p: Patch, pos: nat)
    ensures ByteOf(Apply(c, p), pos) == PatchByte(p, pos, ByteOf(c, pos))
  {
  }

  // ----- bK and jm: the buffer of a file in memory

  class GrowBuffer {
    var data: array<Byte>
    var len: nat

    constructor ()
      ensures Valid() && fresh(data) && Contents() == []
    {
      data, len := new Byte[0], 0;
    }

    // Every byte past the length is zero.
    ghost predicate Valid()
      reads this, data
    {
      len <= data.Length && forall i :: len <= i < data.Length ==> data[i] == 0
    }

    ghost function Contents(): Contents
      requires len <= data.Length
      reads this, data
    {
      data[..len]
    }

    // ij: a larger zero-filled array
    method Enlarged(b: nat) returns (p: array<Byte>)
      requires b > data.Length > 0
      ensures fresh(p) && p.Length >= b && forall i :: 0 <= i < p.Length ==> p[i] == 0
    {
      var s := data.Length * 2;
      if s < b {
        s := b;
      } else if s < 8 {
        s := 8;
      }
      p := new Byte[s](_ => 0);
    }

    // sm: shrinking clears the bytes cut off; growing may move to a new array
    method SetLength(b: nat)
      requires Valid()
      modifies this, data
      ensures Valid() && len == b
      ensures data == old(data) || fresh(data)
      ensures b >= old(len) ==> old(data)[..] == old(data[..])
      ensures Contents() == if b < old(len) then old(Contents())[..b] else Padded(old(Contents()), b)
    {
      var n := len;
      if b < n {
        var q := b;
        while q < n
          invariant b <= q <= n && data == old(data) && len == n
          invariant forall i :: 0 <= i < b ==> data[i] == old(data[i])
          invariant forall i :: b <= i < q ==> data[i] == 0
          invariant forall i :: n <= i < data.Length ==> data[i] == 0
        {
          data[q] := 0;
          q := q + 1;
        }
      } else if b > data.Length {
        var p;
        if data.Length == 0 {
          p := new Byte[b](_ => 0);
        } else {
          p := Enlarged(b);
        }
        forall i | 0 <= i < n {
          p[i] := data[i];
        }
        data := p;
      }
      len := b;
    }

    // af: overwrite a range inside the length
    method SetRange(b: nat, a: seq<Byte>)
      requires Valid() && b + |a| <= len
      modifies data
      ensures Valid()
      ensures Contents() == old(Contents())[..b] + a + old(Contents())[b + |a|..]
      ensures forall i :: 0 <= i < data.Length ==>
                data[i] == if b <= i < b + |a| then a[i - b] else old(data[i])
    {
      forall i | 0 <= i < |a| {
        data[b + i] := a[i];
      }
      assert Contents() == old(Contents())[..b] + a + old(Contents())[b + |a|..];
    }

    // jm.bg: write these bytes here, growing the file as needed
    method WriteAt(b: nat, a: seq<Byte>)
      requires Valid()
      modifies this, data
      ensures Valid() && Contents() == Apply(old(Contents()), Patch(b, a))
      ensures data == old(data) || fresh(data)
      ensures forall i :: 0 <= i < old(data).Length ==>
                old(data)[i] == old(data[i]) || old(data)[i] == PatchByte(Patch(b, a), i, old(data[i]))
    {
      ghost var d, before := data, data[..];
      var s := b + |a|;
      if s > len {
        SetLength(s);
      }
      assert Contents() == Padded(old(Contents()), s) && d[..] == before;
      SetRange(b, a);
      assert forall i :: 0 <= i < d.Length ==> d[i] == before[i] || d[i] == PatchByte(Patch(b, a), i, before[i]);
    }
  }

  // ----- mR: collecting the blocks that a list of patches touches

  function BlockOf(pos: nat): nat {
    pos - pos % 4096
  }

  function EndOf(p: Patch): nat { p.offset + |p.bytes| }

  function Longer(n: nat, ps: seq<Patch>, k: nat): (r: nat)
    requires k <= |ps|
    ensures r >= n
  {
    if k == 0 then n else if EndOf(ps[k - 1]) > Longer(n, ps, k - 1) then EndOf(ps[k - 1]) else Longer(n, ps, k - 1)
  }

  // The block at k of the patched contents.
  ghost predicate IsBlock(block: seq<Byte>, k: nat, base: Contents, ps: seq<Patch>) {
    |block| == 4096 && forall o :: 0 <= o < 4096 ==> block[o] == PatchedByte(base, ps, k + o)
  }

  function PatchedByte(base: Contents, ps: seq<Patch>, pos: nat): Byte {
    Over(ps, pos, ByteOf(base, pos))
  }

  type Blocks = map<nat, seq<Byte>>

  // Exactly the touched blocks are there, each with its patched bytes.
  ghost predicate Touched(blocks: Blocks, base: Contents, ps: seq<Patch>) {
    && (forall k :: k in blocks ==> k % 4096 == 0 && IsBlock(blocks[k], k, base, ps))
    && (forall pos: nat :: CoveredBy(ps, pos) ==> BlockOf(pos) in blocks)
    && (forall k :: k in blocks ==> Reason(ps, k))
  }

  // The blocks that a list of patches touches, outright.
  function TouchedBlocks(base: Contents, ps: seq<Patch>): Blocks {
    map k: nat | k in TouchedStarts(base, ps) :: PatchedBlock(base, ps, k)
  }

  function TouchedStarts(base: Contents, ps: seq<Patch>): set<nat> {
    set pos: nat | pos < Longer(|base|, ps, |ps|) && CoveredBy(ps, pos) :: BlockOf(pos)
  }

  function PatchedBlock(base: Contents, ps: seq<Patch>, k: nat): (block: seq<Byte>)
    ensures IsBlock(block, k, base, ps)
  {
    seq<Byte>(4096, o requires 0 <= o => PatchedByte(base, ps, k + o))
  }

  lemma {:induction false} CoveredBelow(n: nat, ps: seq<Patch>, k: nat, i: nat, pos: nat)
    requires i < k <= |ps| && Covers(ps[i], pos)
    ensures pos < Longer(n, ps, k)
  {
    if i < k - 1 {
      CoveredBelow(n, ps, k - 1, i, pos);
    }
  }

  lemma TouchedBlocksTouched(base: Contents, ps: seq<Patch>)
    ensures Touched(TouchedBlocks(base, ps), base, ps)
  {
    hide IsBlock, PatchedBlock, Longer;
    forall pos: nat | CoveredBy(ps, pos)
      ensures BlockOf(pos) in TouchedStarts(base, ps)
    {
      var i :| 0 <= i < |ps| && Covers(ps[i], pos);
      CoveredBelow(|base|, ps, |ps|, i, pos);
    }
    hide CoveredBy;
  }

  // mS: a new block, filled from the contents before the first patch
  function NewBlock(base: Contents, p: nat): (block: seq<Byte>)
    ensures |block| == 4096 && forall o :: 0 <= o < 4096 ==> block[o] == ByteOf(base, p + o)
  {
    seq(4096, o requires 0 <= o => if p + o < |base| then base[p + o] else 0)
  }

  // jw: put part of a patch into the block at p, creating the block if needed
  function PutPart(blocks: Blocks, base: Contents, p: nat, o: nat, part: seq<Byte>): Blocks
    requires o + |part| <= 4096 && (p in blocks ==> |blocks[p]| == 4096)
  {
    var block := if p in blocks then blocks[p] else NewBlock(base, p);
    blocks[p := block[..o] + part + block[o + |part|..]]
  }

  // A block nobody touched still has the bytes it had before.
  lemma BlockBefore(blocks: Blocks, base: Contents, ps: seq<Patch>, p: nat)
    requires Touched(blocks, base, ps) && p % 4096 == 0
    ensures IsBlock(if p in blocks then blocks[p] else NewBlock(base, p), p, base, ps)
  {
    if p !in blocks {
      var block := NewBlock(base, p);
      forall o | 0 <= o < 4096
        ensures block[o] == PatchedByte(base, ps, p + o)
      {
        BlockOfInside(p, o);
        OverCovered(ps, |ps|, p + o, ByteOf(base, p + o), 0);
      }
    }
  }

  lemma BlockOfInside(p: nat, o: nat)
    requires p % 4096 == 0 && o < 4096
    ensures BlockOf(p + o) == p
  {
  }

  lemma PutPartBlock(block: seq<Byte>, p: nat, o: nat, part: seq<Byte>, base: Contents, ps: seq<Patch>)
    requires IsBlock(block, p, base, ps) && o + |part| <= 4096
    ensures IsBlock(block[..o] + part + block[o + |part|..], p, base, ps + [Patch(p + o, part)])
  {
    hide Over;
    var q, after := Patch(p + o, part), block[..o] + part + block[o + |part|..];
    forall i | 0 <= i < 4096
      ensures after[i] == PatchedByte(base, ps + [q], p + i)
    {
      OverSnoc(ps, q, p + i, ByteOf(base, p + i));
      assert block[i] == PatchedByte(base, ps, p + i);
    }
  }

  lemma OtherBlock(block: seq<Byte>, k: nat, q: Patch, base: Contents, ps: seq<Patch>)
    requires IsBlock(block, k, base, ps) && k % 4096 == 0
    requires forall pos :: k <= pos < k + 4096 ==> !Covers(q, pos)
    ensures IsBlock(block, k, base, ps + [q])
  {
    hide Over;
    forall o | 0 <= o < 4096
      ensures block[o] == PatchedByte(base, ps + [q], k + o)
    {
      OverSnoc(ps, q, k + o, ByteOf(base, k + o));
      assert block[o] == PatchedByte(base, ps, k + o);
    }
  }

  // A block is there for a reason: some byte of it is covered.
  ghost predicate Reason(ps: seq<Patch>, k: nat) {
    exists pos: nat :: CoveredBy(ps, pos) && BlockOf(pos) == k
  }

  lemma ReasonSnoc(ps: seq<Patch>, q: Patch, k: nat)
    requires Reason(ps, k)
    ensures Reason(ps + [q], k)
  {
    var pos: nat :| CoveredBy(ps, pos) && BlockOf(pos) == k;
    OverSnoc(ps, q, pos, 0);
  }

  lemma ReasonHere(ps: seq<Patch>, p: nat, o: nat, q: Patch)
    requires p % 4096 == 0 && o < 4096 && q.offset == p + o && q.bytes != []
    ensures Reason(ps + [q], p)
  {
    OverSnoc(ps, q, p + o, 0);
    BlockOfInside(p, o);
  }

  lemma PutPartElsewhere(blocks: Blocks, base: Contents, ps: seq<Patch>, p: nat, o: nat, q: Patch, k: nat)
    requires Touched(blocks, base, ps) && k in blocks && k != p
    requires p % 4096 == 0 && o + |q.bytes| <= 4096 && q.offset == p + o
    ensures k % 4096 == 0 && IsBlock(blocks[k], k, base, ps + [q]) && Reason(ps + [q], k)
  {
    hide IsBlock, CoveredBy;
    OutsideBlock(k, p, o, q);
    OtherBlock(blocks[k], k, q, base, ps);
    ReasonSnoc(ps, q, k);
  }

  lemma PutPartCovers(blocks: Blocks, base: Contents, ps: seq<Patch>, p: nat, o: nat, q: Patch, pos: nat)
    requires Touched(blocks, base, ps) && CoveredBy(ps + [q], pos)
    requires p % 4096 == 0 && o + |q.bytes| <= 4096 && q.offset == p + o
    ensures BlockOf(pos) in blocks || BlockOf(pos) == p
  {
    hide IsBlock, CoveredBy;
    OverSnoc(ps, q, pos, 0);
    if Covers(q, pos) {
      BlockOfInside(p, pos - p);
    }
  }

  lemma PutPartTouched(blocks: Blocks, base: Contents, ps: seq<Patch>, p: nat, o: nat, part: seq<Byte>)
    requires Touched(blocks, base, ps) && p % 4096 == 0 && part != [] && o + |part| <= 4096
    ensures Touched(PutPart(blocks, base, p, o, part), base, ps + [Patch(p + o, part)])
  {
    BlockSizes(blocks, base, ps);
    hide Over, IsBlock, CoveredBy;
    var q := Patch(p + o, part);
    var after := PutPart(blocks, base, p, o, part);
    forall k | k in after
      ensures k % 4096 == 0 && IsBlock(after[k], k, base, ps + [q]) && Reason(ps + [q], k)
    {
      if k == p {
        BlockBefore(blocks, base, ps, p);
        PutPartBlock(if p in blocks then blocks[p] else NewBlock(base, p), p, o, part, base, ps);
        ReasonHere(ps, p, o, q);
      } else {
        PutPartElsewhere(blocks, base, ps, p, o, q, k);
      }
    }
    forall pos: nat | CoveredBy(ps + [q], pos)
      ensures BlockOf(pos) in after
    {
      PutPartCovers(blocks, base, ps, p, o, q, pos);
    }
  }

  lemma OutsideBlock(k: nat, p: nat, o: nat, q: Patch)
    requires k % 4096 == 0 && p % 4096 == 0 && k != p && o + |q.bytes| <= 4096 && q.offset == p + o
    ensures forall pos :: k <= pos < k + 4096 ==> !Covers(q, pos)
  {
    assert k >= p + 4096 || k + 4096 <= p;
  }

  // Two lists of patches with the same effect on the byte at pos.
  ghost predicate SameAt(ps: seq<Patch>, qs: seq<Patch>, pos: nat) {
    && (CoveredBy(ps, pos) <==> CoveredBy(qs, pos))
    && forall under: Byte :: Over(ps, pos, under) == Over(qs, pos, under)
  }

  lemma SameEffect(blocks: Blocks, base: Contents, ps: seq<Patch>, qs: seq<Patch>)
    requires Touched(blocks, base, ps) && forall pos: nat :: SameAt(ps, qs, pos)
    ensures Touched(blocks, base, qs)
  {
    hide Over, CoveredBy;
    forall k | k in blocks
      ensures IsBlock(blocks[k], k, base, qs)
      ensures exists pos: nat :: CoveredBy(qs, pos) && BlockOf(pos) == k
    {
      forall o | 0 <= o < 4096
        ensures blocks[k][o] == PatchedByte(base, qs, k + o)
      {
        assert SameAt(ps, qs, k + o);
        assert blocks[k][o] == PatchedByte(base, ps, k + o);
      }
      var pos: nat :| CoveredBy(ps, pos) && BlockOf(pos) == k;
      assert SameAt(ps, qs, pos);
    }
    forall pos: nat | CoveredBy(qs, pos)
      ensures BlockOf(pos) in blocks
    {
      assert SameAt(ps, qs, pos);
    }
  }

  // A patch applied in two pieces is the patch.
  lemma PatchInPieces(blocks: Blocks, base: Contents, ps: seq<Patch>, a: nat, b: seq<Byte>, r: nat, m: nat)
    requires r + m <= |b|
    requires Touched(blocks, base, (ps + [Patch(a, b[..r])]) + [Patch(a + r, b[r..r + m])])
    ensures Touched(blocks, base, ps + [Patch(a, b[..r + m])])
  {
    hide Over, CoveredBy;
    var one, two := ps + [Patch(a, b[..r + m])], (ps + [Patch(a, b[..r])]) + [Patch(a + r, b[r..r + m])];
    forall pos: nat
      ensures SameAt(two, one, pos)
    {
      OverSnoc(ps, Patch(a, b[..r + m]), pos, 0);
      OverSnoc(ps, Patch(a, b[..r]), pos, 0);
      OverSnoc(ps + [Patch(a, b[..r])], Patch(a + r, b[r..r + m]), pos, 0);
      forall under: Byte
        ensures Over(one, pos, under) == Over(two, pos, under)
      {
        OverSnoc(ps, Patch(a, b[..r + m]), pos, under);
        OverSnoc(ps, Patch(a, b[..r]), pos, under);
        OverSnoc(ps + [Patch(a, b[..r])], Patch(a + r, b[r..r + m]), pos, under);
      }
    }
    SameEffect(blocks, base, two, one);
  }

  class BlockWriter {
    const base: Contents
    var blocks: Blocks
    var length: nat

    constructor (base: Contents)
      ensures this.base == base && length == |base| && blocks == map[]
    {
      this.base := base;
      blocks, length := map[], |base|;
    }

    // jO: cut a patch at block boundaries
    method AddWrite(a: nat, b: seq<Byte>, ghost ps: seq<Patch>)
      requires Touched(blocks, base, ps)
      modifies this
      ensures Touched(blocks, base, ps + [Patch(a, b)])
      ensures length == if a + |b| > old(length) then a + |b| else old(length)
    {
      hide Touched;
      var s, r := |b|, 0;
      EmptyPatch(blocks, base, ps, a);
      while r < s
        invariant 0 <= r <= s && length == old(length)
        invariant Touched(blocks, base, ps + [Patch(a, b[..r])])
      {
        var q := a + r;
        var p := q / 4096;
        var o := q % 4096;
        var n := s - r;
        var m := n;
        if o != 0 {
          if 4096 - o < n {
            m := 4096 - o;
          }
        } else if 4096 < n {
          m := 4096;
        }
        ghost var done := ps + [Patch(a, b[..r])];
        BlockSizes(blocks, base, done);
        PutPartTouched(blocks, base, done, p * 4096, o, b[r..r + m]);
        blocks := PutPart(blocks, base, p * 4096, o, b[r..r + m]);
        PatchInPieces(blocks, base, ps, a, b, r, m);
        r := r + m;
      }
      assert b[..s] == b;
      length := if a + s > length then a + s else length;
    }
  }

  lemma BlockSizes(blocks: Blocks, base: Contents, ps: seq<Patch>)
    requires Touched(blocks, base, ps)
    ensures forall k :: k in blocks ==> |blocks[k]| == 4096
  {
  }

  lemma EmptyPatch(blocks: Blocks, base: Contents, ps: seq<Patch>, a: nat)
    requires Touched(blocks, base, ps)
    ensures Touched(blocks, base, ps + [Patch(a, [])])
  {
    hide Over, CoveredBy;
    var q := Patch(a, []);
    forall pos: nat
      ensures SameAt(ps, ps + [q], pos)
    {
      OverSnoc(ps, q, pos, 0);
      forall under: Byte
        ensures Over(ps, pos, under) == Over(ps + [q], pos, under)
      {
        OverSnoc(ps, q, pos, under);
      }
    }
    SameEffect(blocks, base, ps, ps + [q]);
  }
}
