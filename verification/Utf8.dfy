// UTF-8 as section 3 of RFC 3629 defines it, for text held as UTF-16 code units.
module Utf8 {
  import opened Wrappers

  type Unit = u: nat | u < 65536

  predicate IsHigh(u: Unit) { 0xD800 <= u < 0xDC00 }

  predicate IsLow(u: Unit) { 0xDC00 <= u < 0xE000 }

  predicate IsScalar(cp: nat) { cp < 0xD800 || 0xE000 <= cp < 0x110000 }

  const REPLACEMENT: nat := 0xFFFD

  function Paired(high: Unit, low: Unit): nat
    requires IsHigh(high) && IsLow(low)
  {
    0x10000 + (high - 0xD800) * 1024 + (low - 0xDC00)
  }

  // The characters from unit i on: each surrogate pair is one character, and a
  // surrogate without its other half is replaced.
  function CodePoints(a: seq<Unit>, i: nat): seq<nat>
    requires i <= |a|
    decreases |a| - i
  {
    if i == |a| then []
    else if IsHigh(a[i]) && i + 1 < |a| && IsLow(a[i + 1]) then [Paired(a[i], a[i + 1])] + CodePoints(a, i + 2)
    else if IsHigh(a[i]) || IsLow(a[i]) then [REPLACEMENT] + CodePoints(a, i + 1)
    else [a[i]] + CodePoints(a, i + 1)
  }

  predicate AllScalar(cps: seq<nat>) { forall k :: 0 <= k < |cps| ==> IsScalar(cps[k]) }

  lemma {:induction false} CodePointsAreScalar(a: seq<Unit>, i: nat)
    requires i <= |a|
    ensures AllScalar(CodePoints(a, i))
    decreases |a| - i
  {
    if i < |a| {
      CodePointsAreScalar(a, i + 1);
      if i + 1 < |a| {
        CodePointsAreScalar(a, i + 2);
      }
    }
  }

  // The table of section 3.
  function Octets(cp: nat): (bytes: seq<Byte>)
    requires cp < 0x110000
    ensures 1 <= |bytes| <= 4
  {
    if cp < 0x80 then [cp]
    else if cp < 0x800 then [0xC0 + cp / 64, 0x80 + cp % 64]
    else if cp < 0x10000 then [0xE0 + cp / 4096, 0x80 + cp / 64 % 64, 0x80 + cp % 64]
    else [0xF0 + cp / 262144, 0x80 + cp / 4096 % 64, 0x80 + cp / 64 % 64, 0x80 + cp % 64]
  }

  function Encoding(cps: seq<nat>): seq<Byte>
    requires AllScalar(cps)
  {
    if cps == [] then [] else Octets(cps[0]) + Encoding(cps[1..])
  }

  // ----- reading it back, strictly (the syntax of section 4)

  predicate IsTail(b: Byte) { 0x80 <= b < 0xC0 }

  function Two(b0: int, b1: int): int { (b0 - 0xC0) * 64 + (b1 - 0x80) }

  function Three(b0: int, b1: int, b2: int): int { (b0 - 0xE0) * 4096 + (b1 - 0x80) * 64 + (b2 - 0x80) }

  function Four(b0: int, b1: int, b2: int, b3: int): int {
    (b0 - 0xF0) * 262144 + (b1 - 0x80) * 4096 + (b2 - 0x80) * 64 + (b3 - 0x80)
  }

  // A character of n bytes, unless it would fit in fewer or is no character.
  function Checked(cp: int, least: nat, n: nat): (r: Option<(nat, nat)>)
    ensures r.Some? ==> IsScalar(r.value.0) && r.value == (cp, n) && least <= cp
  {
    if least <= cp && IsScalar(cp) then Some((cp, n)) else None
  }

  // The first character and how many bytes it takes.
  function First(b: seq<Byte>): (r: Option<(nat, nat)>)
    requires b != []
    ensures r.Some? ==> IsScalar(r.value.0) && 1 <= r.value.1 <= |b|
  {
    if b[0] < 0x80 then Some((b[0], 1))
    else if 0xC0 <= b[0] < 0xE0 && |b| >= 2 && IsTail(b[1]) then Checked(Two(b[0], b[1]), 0x80, 2)
    else if 0xE0 <= b[0] < 0xF0 && |b| >= 3 && IsTail(b[1]) && IsTail(b[2]) then
      Checked(Three(b[0], b[1], b[2]), 0x800, 3)
    else if 0xF0 <= b[0] < 0xF8 && |b| >= 4 && IsTail(b[1]) && IsTail(b[2]) && IsTail(b[3]) then
      Checked(Four(b[0], b[1], b[2], b[3]), 0x10000, 4)
    else None
  }

  function Decode(b: seq<Byte>): Option<seq<nat>> {
    if b == [] then Some([])
    else
      var first := First(b);
      if first.None? then None
      else
        var rest := Decode(b[first.value.1..]);
        if rest.None? then None else Some([first.value.0] + rest.value)
  }

  // Digits in base 64.
  lemma Sextets(x: nat)
    ensures x == x / 64 * 64 + x % 64
    ensures x / 64 == x / 4096 * 64 + x / 64 % 64
    ensures x / 4096 == x / 262144 * 64 + x / 4096 % 64
  {
    assert x / 4096 == x / 64 / 64;
    assert x / 262144 == x / 4096 / 64;
  }

  lemma SextetsUnique(a: nat, b: nat)
    requires b < 64
    ensures (a * 64 + b) / 64 == a && (a * 64 + b) % 64 == b
  {
  }

  lemma TwoOf(x: nat)
    requires x < 0x800
    ensures Two(0xC0 + x / 64, 0x80 + x % 64) == x
  {
    Sextets(x);
  }

  lemma ThreeOf(x: nat)
    requires x < 0x10000
    ensures Three(0xE0 + x / 4096, 0x80 + x / 64 % 64, 0x80 + x % 64) == x
  {
    Sextets(x);
  }

  lemma FourOf(x: nat)
    requires x < 0x110000
    ensures Four(0xF0 + x / 262144, 0x80 + x / 4096 % 64, 0x80 + x / 64 % 64, 0x80 + x % 64) == x
  {
    Sextets(x);
  }

  lemma FirstOfOctets(cp: nat, rest: seq<Byte>)
    requires IsScalar(cp)
    ensures First(Octets(cp) + rest) == Some((cp, |Octets(cp)|))
  {
    var o := Octets(cp);
    var b := o + rest;
    assert forall k :: 0 <= k < |o| ==> b[k] == o[k];
    if cp < 0x80 {
    } else if cp < 0x800 {
      TwoOf(cp);
      hide Two, Three, Four;
      assert 0xC0 <= o[0] < 0xE0 && IsTail(o[1]);
    } else if cp < 0x10000 {
      ThreeOf(cp);
      hide Two, Three, Four;
      assert 0xE0 <= o[0] < 0xF0 && IsTail(o[1]) && IsTail(o[2]);
    } else {
      FourOf(cp);
      hide Two, Three, Four;
      assert 0xF0 <= o[0] < 0xF8 && IsTail(o[1]) && IsTail(o[2]) && IsTail(o[3]);
    }
  }

  lemma OfTwo(b0: nat, b1: nat)
    requires 0xC0 <= b0 && 0x80 <= b1 < 0xC0
    ensures var x := Two(b0, b1);
            x >= 0 && b0 == 0xC0 + x / 64 && b1 == 0x80 + x % 64
  {
    SextetsUnique(b0 - 0xC0, b1 - 0x80);
  }

  lemma OfThree(b0: nat, b1: nat, b2: nat)
    requires 0xE0 <= b0 && 0x80 <= b1 < 0xC0 && 0x80 <= b2 < 0xC0
    ensures var x := Three(b0, b1, b2);
            x >= 0 && b0 == 0xE0 + x / 4096 && b1 == 0x80 + x / 64 % 64 && b2 == 0x80 + x % 64
  {
    var h := (b0 - 0xE0) * 64 + (b1 - 0x80);
    var x := Three(b0, b1, b2);
    SextetsUnique(h, b2 - 0x80);
    SextetsUnique(b0 - 0xE0, b1 - 0x80);
    assert x == h * 64 + (b2 - 0x80);
    assert x / 4096 == x / 64 / 64;
  }

  lemma OfFour(b0: nat, b1: nat, b2: nat, b3: nat)
    requires 0xF0 <= b0 && 0x80 <= b1 < 0xC0 && 0x80 <= b2 < 0xC0 && 0x80 <= b3 < 0xC0
    ensures var x := Four(b0, b1, b2, b3);
            x >= 0 && b0 == 0xF0 + x / 262144 && b1 == 0x80 + x / 4096 % 64 && b2 == 0x80 + x / 64 % 64
            && b3 == 0x80 + x % 64
  {
    var x := Four(b0, b1, b2, b3);
    OfThree(b0 - 0x10, b1, b2);
    var h := Three(b0 - 0x10, b1, b2);
    SextetsUnique(h, b3 - 0x80);
    assert x == h * 64 + (b3 - 0x80);
    assert x / 64 == h && x / 4096 == h / 64 && x / 262144 == h / 4096;
  }

  lemma OctetsOfFirst(b: seq<Byte>)
    requires b != [] && First(b).Some?
    ensures var (cp, n) := First(b).value;
            b[..n] == Octets(cp)
  {
    if b[0] < 0x80 {
    } else if b[0] < 0xE0 {
      OfTwo(b[0], b[1]);
      hide Two, Three, Four;
    } else if b[0] < 0xF0 {
      OfThree(b[0], b[1], b[2]);
      assert Three(b[0], b[1], b[2]) < 0x10000;
      hide Two, Three, Four;
    } else {
      OctetsOfFour(b);
      hide First, Octets;
    }
  }

  lemma OctetsOfFour(b: seq<Byte>)
    requires b != [] && b[0] >= 0xF0 && First(b).Some?
    ensures var (cp, n) := First(b).value;
            b[..n] == Octets(cp)
  {
    hide Two, Three;
    var cp := First(b).value.0;
    assert cp == Four(b[0], b[1], b[2], b[3]) >= 0x10000;
    FourOctets(b[0], b[1], b[2], b[3], cp);
    hide Four, Octets;
    assert b[..4] == [b[0], b[1], b[2], b[3]];
  }

  lemma FourOctets(b0: Byte, b1: Byte, b2: Byte, b3: Byte, cp: nat)
    requires 0xF0 <= b0 && IsTail(b1) && IsTail(b2) && IsTail(b3)
    requires cp == Four(b0, b1, b2, b3) && 0x10000 <= cp < 0x110000
    ensures Octets(cp) == [b0, b1, b2, b3]
  {
    OfFour(b0, b1, b2, b3);
    hide Four;
  }

  // Decoding what was encoded gives the characters back.
  lemma {:induction false} DecodeEncoding(cps: seq<nat>)
    requires AllScalar(cps)
    ensures Decode(Encoding(cps)) == Some(cps)
  {
    if cps != [] {
      var rest := Encoding(cps[1..]);
      DecodeEncoding(cps[1..]);
      FirstOfOctets(cps[0], rest);
      assert Octets(cps[0]) + rest != [];
      hide First, Octets;
      assert (Octets(cps[0]) + rest)[|Octets(cps[0])|..] == rest;
      assert [cps[0]] + cps[1..] == cps;
    }
  }

  lemma EncodingCons(cp: nat, rest: seq<nat>)
    requires IsScalar(cp) && AllScalar(rest)
    ensures AllScalar([cp] + rest) && Encoding([cp] + rest) == Octets(cp) + Encoding(rest)
  {
    hide Octets, IsScalar;
    assert ([cp] + rest)[1..] == rest;
  }

  lemma DecodeStep(b: seq<Byte>)
    requires b != [] && Decode(b).Some?
    ensures First(b).Some?
    ensures var (cp, n) := First(b).value;
            IsScalar(cp) && Decode(b[n..]).Some? && Decode(b).value == [cp] + Decode(b[n..]).value
  {
    hide First, IsScalar;
  }

  // Only the encoding decodes: nothing else stands for the same characters.
  lemma {:induction false} EncodingDecode(b: seq<Byte>)
    requires Decode(b).Some?
    ensures AllScalar(Decode(b).value) && Encoding(Decode(b).value) == b
  {
    if b != [] {
      DecodeStep(b);
      OctetsOfFirst(b);
      hide Decode, First, Octets, AllScalar, Encoding, IsScalar;
      var (cp, n) := First(b).value;
      var rest := b[n..];
      EncodingDecode(rest);
      EncodingCons(cp, Decode(rest).value);
      Rejoined(b, n);
    }
  }

  lemma Rejoined(b: seq<Byte>, n: nat)
    requires n <= |b|
    ensures b[..n] + b[n..] == b
  {
  }
}
