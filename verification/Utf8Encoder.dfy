// The worker's UTF-8 encoder: a buffer of three bytes per code unit, filled in
// one pass, proved equal to the encoding of RFC 3629 on every UTF-16 string.
module Utf8Encoder {
  import opened Bits
  import opened Utf8
  import opened Wrappers

  // ----- the masks and shifts, as arithmetic

  lemma Powers()
    ensures Pow2(4) == 16 && Pow2(5) == 32 && Pow2(6) == 64 && Pow2(7) == 128 && Pow2(10) == 1024
  {
    assert Pow2(2) == 4;
    assert Pow2(4) == 16;
    assert Pow2(7) == 8 * Pow2(4);
    assert Pow2(10) == 8 * Pow2(7);
  }

  lemma ShiftOnce(x: nat)
    ensures Shr(x, 6) == x / 64 && Low(x, 6) == x % 64
  {
    Powers();
    SplitBits(x, 6);
    ShlIsMul(Shr(x, 6), 6);
  }

  lemma {:induction false} ShrAgain(x: nat, i: nat, j: nat)
    ensures Shr(Shr(x, i), j) == Shr(x, i + j)
  {
    if i > 0 { ShrAgain(x / 2, i - 1, j); }
  }

  lemma Shifts(x: nat)
    ensures Shr(x, 6) == x / 64 && Shr(x, 12) == x / 4096 && Shr(x, 18) == x / 262144
  {
    ShiftOnce(x);
    ShrAgain(x, 6, 6);
    ShiftOnce(x / 64);
    ShrAgain(x, 12, 6);
    ShiftOnce(x / 4096);
  }

  lemma ShiftTen(x: nat)
    ensures Shr(x, 10) == x / 1024 && Low(x, 10) == x % 1024
  {
    Powers();
    SplitBits(x, 10);
    ShlIsMul(Shr(x, 10), 10);
  }

  // x & 63 and x & 1023
  lemma Masks(x: nat)
    ensures And(x, 63) == x % 64 && And(x, 1023) == x % 1024
  {
    Powers();
    AndLowMask(x, 6);
    AndLowMask(x, 10);
    ShiftOnce(x);
    ShiftTen(x);
  }

  lemma TopMask()
    ensures Shl(63, 10) == 64512
  {
    Powers();
    ShlIsMul(63, 10);
  }

  lemma TopSix(u: Unit)
    ensures And(u, 64512) == u / 1024 * 1024
  {
    hide And, Shl, Shr, Low, Pow2;
    TopMask();
    AndShiftedMask(u, 63, 10);
    ShiftTen(u);
    Masks(u / 1024);
    assert And(u / 1024, 63) == u / 1024;
    TimesThousand(u / 1024);
  }

  lemma TimesThousand(x: nat)
    ensures Shl(x, 10) == x * 1024
  {
    Powers();
    ShlIsMul(x, 10);
  }

  // x & 64512: the top six bits tell the kind of a code unit
  lemma Kind(u: Unit)
    ensures And(u, 64512) == 55296 <==> IsHigh(u)
    ensures And(u, 64512) == 56320 <==> IsLow(u)
  {
    TopSix(u);
    hide And;
    var top := u / 1024;
    assert top * 1024 == 55296 <==> top == 54;
    assert top * 1024 == 56320 <==> top == 55;
  }

  // lo | mark, for a mark whose lowest set bit is above lo
  lemma Mark(lo: nat)
    ensures lo < 16 ==> Or(lo, 240) == 240 + lo
    ensures lo < 32 ==> Or(lo, 224) == 224 + lo
    ensures lo < 64 ==> Or(lo, 192) == 192 + lo && Or(lo, 128) == 128 + lo
  {
    Powers();
    ShlIsMul(15, 4);
    ShlIsMul(7, 5);
    ShlIsMul(3, 6);
    ShlIsMul(2, 6);
    if lo < 16 { OrDisjoint(15, lo, 4); }
    if lo < 32 { OrDisjoint(7, lo, 5); }
    if lo < 64 { OrDisjoint(3, lo, 6); OrDisjoint(2, lo, 6); }
  }

  lemma LowTen(base: nat, x: nat)
    requires x < 1024
    ensures (base * 1024 + x) % 1024 == x
  {
  }

  // 65536 + ((a & 1023) << 10) | b & 1023
  lemma PairBits(a: Unit, b: Unit)
    requires IsHigh(a) && IsLow(b)
    ensures Or(65536 + Shl(And(a, 1023), 10), And(b, 1023)) == Paired(a, b)
  {
    hide And, Or, Shl;
    Masks(a);
    Masks(b);
    LowTen(54, a - 0xD800);
    LowTen(55, b - 0xDC00);
    PairSum(a - 0xD800, b - 0xDC00);
  }

  lemma PairSum(h: nat, l: nat)
    requires h < 1024 && l < 1024
    ensures Or(65536 + Shl(h, 10), l) == 65536 + h * 1024 + l
  {
    Powers();
    ShlIsMul(h, 10);
    ShlIsMul(64 + h, 10);
    OrDisjoint(64 + h, l, 10);
    hide Or, Shl, Pow2;
  }

  lemma TwoBytes(n: Unit)
    requires 0x80 <= n < 0x800
    ensures Octets(n) == [Or(Shr(n, 6), 192), Or(And(n, 63), 128)]
  {
    hide And, Or, Shr;
    Shifts(n);
    Masks(n);
    Mark(n / 64);
    Mark(n % 64);
  }

  lemma ThreeBytes(n: Unit)
    requires n >= 0x800
    ensures Octets(n) == [Or(Shr(n, 12), 224), Or(And(Shr(n, 6), 63), 128), Or(And(n, 63), 128)]
  {
    hide And, Or, Shr;
    Shifts(n);
    Masks(n);
    Masks(n / 64);
    Mark(n / 4096);
    Mark(n / 64 % 64);
    Mark(n % 64);
  }

  lemma FourBytes(s: nat)
    requires 0x10000 <= s < 0x110000
    ensures Octets(s) == [Or(Shr(s, 18), 240), Or(And(Shr(s, 12), 63), 128), Or(And(Shr(s, 6), 63), 128),
                          Or(And(s, 63), 128)]
  {
    hide And, Or, Shr;
    Shifts(s);
    Masks(s);
    Masks(s / 64);
    Masks(s / 4096);
    Mark(s / 262144);
    Mark(s / 4096 % 64);
    Mark(s / 64 % 64);
    Mark(s % 64);
  }

  // The encoding of a string from unit i on.
  function EncodedFrom(a: seq<Unit>, i: nat): seq<Byte>
    requires i <= |a|
  {
    CodePointsAreScalar(a, i);
    Encoding(CodePoints(a, i))
  }

  // What unit i contributes, and where the next character starts.
  lemma Unfold(a: seq<Unit>, i: nat)
    requires i < |a|
    ensures IsHigh(a[i]) && i + 1 < |a| && IsLow(a[i + 1]) ==>
              EncodedFrom(a, i) == Octets(Paired(a[i], a[i + 1])) + EncodedFrom(a, i + 2)
    ensures (IsHigh(a[i]) && (i + 1 == |a| || !IsLow(a[i + 1]))) || IsLow(a[i]) ==>
              EncodedFrom(a, i) == Octets(REPLACEMENT) + EncodedFrom(a, i + 1)
    ensures !IsHigh(a[i]) && !IsLow(a[i]) ==> EncodedFrom(a, i) == Octets(a[i]) + EncodedFrom(a, i + 1)
  {
    CodePointsAreScalar(a, i);
    CodePointsAreScalar(a, i + 1);
    hide Octets;
    var cps := CodePoints(a, i);
    if IsHigh(a[i]) && i + 1 < |a| && IsLow(a[i + 1]) {
      CodePointsAreScalar(a, i + 2);
      assert cps[1..] == CodePoints(a, i + 2);
    } else {
      assert cps[1..] == CodePoints(a, i + 1);
    }
  }

  class Encoder {
    const target: array<Byte>
    var pos: nat

    constructor (capacity: nat)
      ensures pos == 0 && target.Length == capacity && fresh(target)
    {
      target := new Byte[capacity](_ => 0);
      pos := 0;
    }

    function Written(): seq<Byte>
      requires pos <= target.Length
      reads this, target
    {
      target[..pos]
    }

    // ed: U+FFFD
    method WriteReplacement()
      requires pos + 3 <= target.Length
      modifies this`pos, target
      ensures pos == old(pos) + 3 && Written() == old(Written()) + Octets(REPLACEMENT)
    {
      var p := pos;
      var o := p + 1;
      pos := o;
      target[p] := 239;
      p := o + 1;
      pos := p;
      target[o] := 191;
      pos := p + 1;
      target[p] := 189;
    }

    // jA: a surrogate pair, or U+FFFD if the second unit is not a low surrogate
    method WriteSurrogate(a: Unit, b: Unit) returns (paired: bool)
      requires pos + 4 <= target.Length && IsHigh(a)
      modifies this`pos, target
      ensures paired == IsLow(b) && old(pos) <= pos <= old(pos) + 4 && (!paired ==> pos == old(pos) + 3)
      ensures Written() == old(Written()) + Octets(if IsLow(b) then Paired(a, b) else REPLACEMENT)
    {
      Kind(b);
      if And(b, 64512) == 56320 {
        var s := Or(65536 + Shl(And(a, 1023), 10), And(b, 1023));
        PairBits(a, b);
        FourBytes(s);
        hide And, Or, Shl, Shr, Octets, Paired;
        ghost var bytes := Octets(s);
        var q := pos;
        var p := q + 1;
        pos := p;
        target[q] := Or(Shr(s, 18), 240);
        q := p + 1;
        pos := q;
        target[p] := Or(And(Shr(s, 12), 63), 128);
        p := q + 1;
        pos := p;
        target[q] := Or(And(Shr(s, 6), 63), 128);
        pos := p + 1;
        target[p] := Or(And(s, 63), 128);
        return true;
      } else {
        WriteReplacement();
        return false;
      }
    }

    // The three kinds of other units, as the loop of iy writes them.
    method WriteUnit(n: Unit)
      requires pos + 3 <= target.Length && !IsHigh(n) && !IsLow(n)
      modifies this`pos, target
      ensures old(pos) <= pos <= old(pos) + 3
      ensures Written() == old(Written()) + Octets(n)
    {
      hide And, Or, Shl, Shr;
      if n <= 127 {
        var m := pos;
        pos := m + 1;
        target[m] := n;
      } else if n <= 2047 {
        TwoBytes(n);
        var m := pos;
        var l := m + 1;
        pos := l;
        target[m] := Or(Shr(n, 6), 192);
        pos := l + 1;
        target[l] := Or(And(n, 63), 128);
      } else {
        ThreeBytes(n);
        var m := pos;
        var l := m + 1;
        pos := l;
        target[m] := Or(Shr(n, 12), 224);
        m := l + 1;
        pos := m;
        target[l] := Or(And(Shr(n, 6), 63), 128);
        pos := m + 1;
        target[m] := Or(And(n, 63), 128);
      }
    }

    // One turn of iy's loop: what it takes of the string and what it writes.
    // The buffer has room for three bytes a unit, so no exit is ever taken.
    method WriteNext(a: seq<Unit>, o: nat) returns (next: nat)
      requires o < |a| && target.Length == 3 * |a| && pos <= 3 * o
      requires IsHigh(a[o]) ==> o + 1 < |a|
      modifies this`pos, target
      ensures o < next <= |a| && next <= o + 2 && (next == o + 2 ==> IsLow(a[o + 1])) && pos <= 3 * next
      ensures Written() + EncodedFrom(a, next) == old(Written()) + EncodedFrom(a, o)
    {
      hide And, Octets, EncodedFrom, Paired;
      var n := a[o];
      next := o + 1;
      Unfold(a, o);
      Kind(n);
      var q := target.Length;
      var m := And(n, 64512);
      if n <= 127 {
        if pos >= q { assert false; return; }
        WriteUnit(n);
      } else if m == 55296 {
        if pos + 4 > q { assert false; return; }
        var paired := WriteSurrogate(n, a[o + 1]);
        if paired {
          next := o + 2;
        }
      } else if m == 56320 {
        if pos + 3 > q { assert false; return; }
        WriteReplacement();
      } else if n <= 2047 {
        if pos + 1 >= q { assert false; return; }
        WriteUnit(n);
      } else {
        if pos + 2 >= q { assert false; return; }
        WriteUnit(n);
      }
    }

    // iy: everything but a high surrogate in the last place.
    method Fill(a: seq<Unit>) returns (o: nat)
      requires pos == 0 && target.Length == 3 * |a|
      modifies this`pos, target
      ensures o <= |a| && pos <= 3 * o
      ensures Written() + EncodedFrom(a, o) == EncodedFrom(a, 0)
      ensures o == if a != [] && IsHigh(a[|a| - 1]) then |a| - 1 else |a|
    {
      hide And, EncodedFrom;
      var c := |a|;
      if c != 0 {
        Kind(a[c - 1]);
        if And(a[c - 1], 64512) == 55296 {
          c := c - 1;
        }
      }
      o := 0;
      while o < c
        invariant o <= c && pos <= 3 * o && pos <= target.Length
        invariant Written() + EncodedFrom(a, o) == EncodedFrom(a, 0)
      {
        o := WriteNext(a, o);
      }
    }
  }

  // iU.a5: the bytes of a string
  method Encode(a: seq<Unit>) returns (bytes: seq<Byte>)
    ensures bytes == EncodedFrom(a, 0)
  {
    if |a| == 0 {
      return [];
    }
    var p := new Encoder(3 * |a|);
    var end := p.Fill(a);
    Unfold(a, |a| - 1);
    if end != |a| {
      p.WriteReplacement();
    }
    bytes := p.target[..p.pos];
  }

  // What was encoded decodes to the string's characters.
  lemma EncodedDecodes(a: seq<Unit>)
    ensures Decode(EncodedFrom(a, 0)).Some? && Decode(EncodedFrom(a, 0)).value == CodePoints(a, 0)
  {
    CodePointsAreScalar(a, 0);
    DecodeEncoding(CodePoints(a, 0));
  }
}
