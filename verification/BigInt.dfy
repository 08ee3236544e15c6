// Signed integers of any size, as a sign, a digit array and a count of digits
// in use.  Digit arrays may be shared between numbers and are never written
// after the number that owns them has been built.
module BigInts {
  import opened Wrappers
  import opened Bits
  import opened Digits
  import opened DigitLoops
  import opened DigitShifts

  class BigInt {
    const neg: bool
    const digits: array<Digit>
    const used: nat

    constructor (neg: bool, digits: array<Digit>, used: nat)
      ensures this.neg == neg && this.digits == digits && this.used == used
    {
      this.neg := neg;
      this.digits := digits;
      this.used := used;
    }

    // No high zero digits, and zero is never negative.
    ghost predicate Valid()
      reads digits
    {
      && used <= digits.Length
      && (used > 0 ==> digits[used - 1] != 0)
      && (used == 0 ==> !neg)
    }

    ghost function Abs(): int
      requires used <= digits.Length
      reads digits
    {
      Val(digits[..used])
    }

    ghost function Value(): int
      requires used <= digits.Length
      reads digits
    {
      if neg then -Abs() else Abs()
    }

    lemma SignOfValue()
      requires Valid()
      ensures Abs() >= 0
      ensures used == 0 <==> Value() == 0
      ensures neg <==> Value() < 0
    {
      ValBound(digits[..used]);
      if used > 0 {
        ValTopDigit(digits[..used]);
        UpGrows(0, used - 1);
      }
    }

    // The tail shared by every operation: drop high zeros, and the sign of zero.
    static method Trim(neg: bool, n: nat, d: array<Digit>) returns (r: BigInt)
      requires n <= d.Length
      ensures r.Valid() && r.digits == d && r.used <= n
      ensures r.Value() == if neg then -Val(d[..n]) else Val(d[..n])
    {
      var u := UsedDigits(n, d);
      r := new BigInt(if u == 0 then false else neg, d, u);
    }

    // fH
    static method FromSmall(a: nat) returns (r: BigInt)
      requires a < 65536
      ensures r.Valid() && r.Value() == a
    {
      var s := new Digit[1][a];
      assert s[..1] == [a];
      ValSingle(a);
      r := Trim(false, 1, s);
    }

    // fH, for any machine integer
    static method FromInt(n: int) returns (r: BigInt)
      ensures r.Valid() && r.Value() == n
    {
      var a, o := n, n < 0;
      if o {
        if a == -0x8000_0000_0000_0000 {
          var d := new Digit[4](_ => 0);
          d[3] := 32768;
          ValZeros(d[..4][..3]);
          ValInit(d[..4]);
          assert Up(32768, 3) == 0x8000_0000_0000_0000;
          var t := UsedDigits(4, d);
          r := new BigInt(t != 0, d, t);
          return;
        }
        a := -a;
      }
      if a < 65536 {
        var d := new Digit[1](_ => 0);
        d[0] := a;
        assert d[..1] == [d[0]];
        ValSingle(d[0]);
        r := Trim(o, 1, d);
        return;
      }
      if a <= 4294967295 {
        var d := new Digit[2](_ => 0);
        d[0], d[1] := a % 65536, a / 65536;
        assert d[..2] == [d[0]] + [d[1]];
        ValSingle(d[1]);
        ValPrepend(d[0], [d[1]]);
        r := Trim(o, 2, d);
        return;
      }
      var size := (BitLength(a) - 1) / 16 + 1;
      var d := new Digit[size](_ => 0);
      BitLengthFits(a);
      var q := 0;
      ghost var abs := a;
      while a != 0
        invariant 0 <= q <= size && 0 <= a
        invariant Val(d[..q]) + Up(a, q) == abs < Up(1, size)
        invariant forall i :: q <= i < size ==> d[i] == 0
        decreases a
      {
        ValBound(d[..q]);
        UpOrder(a, 1, q);
        ghost var rest := d[q + 1..];
        StoreAbove(d, q, a % 65536);
        assert forall i :: q < i < size ==> d[i] == d[q + 1..][i - q - 1];
        UpDivMod(a, q);
        q, a := q + 1, a / 65536;
      }
      UpZero(q);
      ValTrim(d[..size], q);
      assert d[..size][..q] == d[..q];
      r := Trim(o, size, d);
    }

    // aB
    method Negate() returns (r: BigInt)
      requires Valid()
      ensures r.Valid() && r.Value() == -Value()
    {
      if used == 0 {
        return this;
      }
      r := Trim(!neg, used, digits);
    }

    // dw: |this| + |a|, with the given sign
    method PlusAbs(a: BigInt, sign: bool) returns (r: BigInt)
      requires Valid() && a.Valid()
      ensures r.Valid() && r.Value() == (if sign then -(Abs() + a.Abs()) else Abs() + a.Abs())
      decreases a.used
    {
      if used < a.used {
        r := a.PlusAbs(this, sign);
        return;
      }
      if used == 0 {
        r := FromSmall(0);
        return;
      }
      if a.used == 0 {
        if neg == sign {
          return this;
        }
        r := Negate();
        return;
      }
      var s := used + 1;
      var d := new Digit[s](_ => 0);
      AbsAdd(digits, used, a.digits, a.used, d);
      r := Trim(sign, s, d);
    }

    // cv: |this| - |a|, with the given sign
    method MinusAbs(a: BigInt, sign: bool) returns (r: BigInt)
      requires Valid() && a.Valid() && Abs() >= a.Abs()
      ensures r.Valid() && r.Value() == (if sign then a.Abs() - Abs() else Abs() - a.Abs())
    {
      SignOfValue();
      a.SignOfValue();
      if used == 0 {
        r := FromSmall(0);
        return;
      }
      if a.used == 0 {
        if neg == sign {
          return this;
        }
        r := Negate();
        return;
      }
      AbsOrderUsed(a);
      var d := new Digit[used](_ => 0);
      AbsSub(digits, used, a.digits, a.used, d);
      r := Trim(sign, used, d);
    }

    lemma AbsOrderUsed(a: BigInt)
      requires Valid() && a.Valid() && Abs() >= a.Abs()
      ensures a.used <= used
    {
      if a.used > used {
        LongerIsLarger(a.digits[..a.used], digits[..used]);
      }
    }

    // eT
    method Plus(b: BigInt) returns (r: BigInt)
      requires Valid() && b.Valid()
      ensures r.Valid() && r.Value() == Value() + b.Value()
    {
      SignOfValue();
      b.SignOfValue();
      if used == 0 {
        return b;
      }
      if b.used == 0 {
        return this;
      }
      if neg == b.neg {
        r := PlusAbs(b, neg);
        return;
      }
      var o := CompareDigits(digits, used, b.digits, b.used);
      if o >= 0 {
        r := MinusAbs(b, neg);
      } else {
        r := b.MinusAbs(this, !neg);
      }
    }

    // ds
    method Minus(b: BigInt) returns (r: BigInt)
      requires Valid() && b.Valid()
      ensures r.Valid() && r.Value() == Value() - b.Value()
    {
      SignOfValue();
      b.SignOfValue();
      if used == 0 {
        r := b.Negate();
        return;
      }
      if b.used == 0 {
        return this;
      }
      if neg != b.neg {
        r := PlusAbs(b, neg);
        return;
      }
      var o := CompareDigits(digits, used, b.digits, b.used);
      if o >= 0 {
        r := MinusAbs(b, neg);
      } else {
        r := b.MinusAbs(this, !neg);
      }
    }

    // ai
    method CompareTo(b: BigInt) returns (r: int)
      requires Valid() && b.Valid()
      ensures SameSign(r, Value() - b.Value())
    {
      SignOfValue();
      b.SignOfValue();
      if neg == b.neg {
        r := CompareDigits(digits, used, b.digits, b.used);
        r := if neg then 0 - r else r;
      } else {
        r := if neg then -1 else 1;
      }
    }

    // is: shift left by whole digits
    method ShiftLeftDigits(a: nat) returns (r: BigInt)
      requires Valid()
      ensures r.Valid() && r.Value() == Up(Value(), a)
    {
      NegUp(Abs(), a);
      if used == 0 {
        SignOfValue();
        UpZero(a);
        r := FromSmall(0);
        return;
      }
      var s := used + a;
      var q := new Digit[s](_ => 0);
      CopyUp(digits, used, a, q);
      r := Trim(neg, s, q);
    }

    // it: shift right by whole digits, rounding down
    method ShiftRightDigits(a: nat) returns (r: BigInt)
      requires Valid()
      ensures r.Valid() && FloorOf(r.Value(), Value(), 16 * a)
    {
      SignOfValue();
      ghost var x := digits[..used];
      ValBound(x);
      if used == 0 {
        ShiftedOut(Abs(), 0, 16 * a);
        r := FromSmall(0);
        return;
      }
      var s := used - a;
      if s <= 0 {
        ShiftedOut(Abs(), used, 16 * a);
        r := FromSmall(if neg then 1 else 0);
        if neg {
          r := r.Negate();
        }
        return;
      }
      var q := CloneRange(digits, a, used, s);
      assert q[..s] == x[a..] == digits[a..used];
      FloorOfParts(x, a, 0, Val(x[a..]));
      r := Trim(neg, s, q);
      if neg {
        r := RoundDown(r, a, false);
      }
    }

    // The end of both right shifts of a negative number: one less when a
    // nonzero digit was dropped, or when dropping bits already lost a one.
    method RoundDown(l: BigInt, a: nat, lost: bool) returns (r: BigInt)
      requires Valid() && l.Valid() && a <= used
      ensures r.Valid()
      ensures r.Value() == if lost || exists i :: 0 <= i < a && digits[i] != 0 then l.Value() - 1 else l.Value()
    {
      var one := FromSmall(1);
      if lost {
        r := l.Minus(one);
        return;
      }
      var o := 0;
      while o < a
        invariant 0 <= o <= a
        invariant forall i :: 0 <= i < o ==> digits[i] == 0
      {
        if digits[o] != 0 {
          r := l.Minus(one);
          return;
        }
        o := o + 1;
      }
      r := l;
    }

    // b0: for a shift amount that is not negative
    method ShiftLeftBy(b: nat) returns (r: BigInt)
      requires Valid()
      ensures r.Valid() && r.Value() == Shl(Value(), b)
    {
      NegShl(Abs(), b);
      var s := used;
      if s == 0 {
        SignOfValue();
        ShlZero(b);
        return this;
      }
      var l, k := b / 16, b % 16;
      ShiftLeftParts(Abs(), l, k);
      if k == 0 {
        NegUp(Abs(), l);
        r := ShiftLeftDigits(l);
        return;
      }
      var q := s + l + 1;
      var p := new Digit[q](_ => 0);
      ShiftUp(digits, s, l, k, p);
      ShiftedInto(p[..], l, p[l..q]);
      assert p[..q] == p[..];
      r := Trim(neg, q, p);
    }

    method ShiftLeft(b: int) returns (r: Result<BigInt>)
      requires Valid()
      ensures r.Err? <==> b < 0
      ensures r.Ok? ==> r.value.Valid() && r.value.Value() == Value() * Pow2(b)
    {
      if b < 0 {
        return Err("shift-amount must be posititve");
      }
      ShlIsMul(Value(), b);
      var t := ShiftLeftBy(b);
      return Ok(t);
    }

    // bj: for a shift amount that is not negative
    method ShiftRightBy(b: nat) returns (r: BigInt)
      requires Valid()
      ensures r.Valid() && FloorOf(r.Value(), Value(), b)
    {
      SignOfValue();
      var s := used;
      ValBound(digits[..s]);
      if s == 0 {
        ShiftedOut(0, 0, b);
        return this;
      }
      var m, l := b / 16, b % 16;
      if l == 0 {
        r := ShiftRightDigits(m);
        return;
      }
      var p := s - m;
      if p <= 0 {
        ShiftedOut(Abs(), s, b);
        r := FromSmall(if neg then 1 else 0);
        if neg {
          r := r.Negate();
        }
        return;
      }
      var n := new Digit[p](_ => 0);
      ShiftDown(digits, s, m, l, n);
      r := FloorOfShifted(m, l, p, n);
    }

    // The end of bj: sign and rounding of the digits n that are left.
    method FloorOfShifted(m: nat, l: nat, p: nat, n: array<Digit>) returns (r: BigInt)
      requires Valid() && m < used && 0 < l < 16 && p <= n.Length
      requires Shl(Val(n[..p]), l) + Low(digits[m], l) == Val(digits[m..used])
      ensures r.Valid() && FloorOf(r.Value(), Value(), 16 * m + l)
    {
      ghost var x := digits[..used];
      assert x[m..] == digits[m..used];
      FloorOfParts(x, m, l, Val(n[..p]));
      r := Trim(neg, p, n);
      if neg {
        AndLowMask(digits[m], l);
        r := RoundDown(r, m, And(digits[m], Pow2(l) - 1) != 0);
      }
    }

    method ShiftRight(b: int) returns (r: Result<BigInt>)
      requires Valid()
      ensures r.Err? <==> b < 0
      ensures r.Ok? ==> r.value.Valid() && r.value.Value() == Value() / Pow2(b)
    {
      if b < 0 {
        return Err("shift-amount must be posititve");
      }
      var t := ShiftRightBy(b);
      FloorIsDivision(t.Value(), Value(), b);
      return Ok(t);
    }

    // bI
    method Times(b: BigInt) returns (r: BigInt)
      requires Valid() && b.Valid()
      ensures r.Valid() && r.Value() == Value() * b.Value()
    {
      var l, k := used, b.used;
      if l == 0 || k == 0 {
        SignOfValue();
        b.SignOfValue();
        r := FromSmall(0);
        return;
      }
      var s := l + k;
      var p := new Digit[s](_ => 0);
      ValZeros(p[..]);
      var n := 0;
      while n < k
        invariant 0 <= n <= k
        invariant Val(p[..]) == Val(digits[..l]) * Val(b.digits[..n])
      {
        MultiplyRow(digits, l, b.digits, k, n, p);
        n := n + 1;
      }
      assert p[..s] == p[..];
      SignedProduct(Val(digits[..l]), Val(b.digits[..k]), neg, b.neg);
      r := Trim(neg != b.neg, s, p);
    }
  }

  // y is x / 2^n, rounded towards negative infinity.
  ghost predicate FloorOf(y: int, x: int, n: nat) {
    0 <= x - Shl(y, n) < Pow2(n)
  }

  lemma FloorIsDivision(y: int, x: int, n: nat)
    requires FloorOf(y, x, n)
    ensures y == x / Pow2(n)
  {
    ShlIsMul(y, n);
    var d := Pow2(n);
    assert y * d == d * y;
    DivModUnique(x, d, y, x - d * y);
  }

  lemma FloorShift(a: int, q: int, r: int, n: nat)
    requires a == Shl(q, n) + r && 0 <= r < Pow2(n)
    ensures FloorOf(q, a, n)
    ensures FloorOf(if r == 0 then -q else -q - 1, -a, n)
  {
    NegShl(q, n);
    ShlAdd(-q, -1, n);
    NegShl(1, n);
    ShlOne(n);
  }

  lemma NegShl(x: int, k: nat)
    ensures Shl(-x, k) == -Shl(x, k)
  {
    ShlAdd(x, -x, k);
    ShlZero(k);
  }

  lemma NegUp(x: int, k: nat)
    ensures Up(-x, k) == -Up(x, k)
  {
    UpSub(0, x, k);
    UpZero(k);
  }

  // The part of x dropped by a right shift of 16 * m + l bits.
  ghost function Dropped(x: seq<Digit>, m: nat, l: nat): int
    requires m < |x|
  {
    Val(x[..m]) + Up(Low(x[m], l), m)
  }

  // No one bit is dropped.
  ghost predicate Lossless(x: seq<Digit>, m: nat, l: nat)
    requires m < |x|
  {
    Low(x[m], l) == 0 && forall i :: 0 <= i < m ==> x[i] == 0
  }

  lemma DroppedFits(x: seq<Digit>, m: nat, l: nat)
    requires m < |x|
    ensures 0 <= Dropped(x, m, l) < Pow2(16 * m + l)
    ensures Dropped(x, m, l) == 0 <==> Lossless(x, m, l)
  {
    SplitBits(x[m], l);
    ValBound(x[..m]);
    UpAdd(Low(x[m], l), 1, m);
    UpMonotone(Low(x[m], l) + 1, Pow2(l), m);
    UpIsShl(Pow2(l), m);
    Pow2Sum(l, 16 * m);
    UpZero(m);
    UpOrder(0, Low(x[m], l), m);
    if Val(x[..m]) == 0 {
      ValZeroDigits(x[..m]);
      assert forall i :: 0 <= i < m ==> x[i] == x[..m][i];
    }
    if forall i :: 0 <= i < m ==> x[i] == 0 {
      ValZeros(x[..m]);
    }
  }

  // What vV leaves is the quotient, and the rest is what it dropped.
  lemma ShiftedParts(x: seq<Digit>, m: nat, l: nat, q: int)
    requires m < |x| && Shl(q, l) + Low(x[m], l) == Val(x[m..])
    ensures Val(x) == Shl(q, 16 * m + l) + Dropped(x, m, l)
  {
    ValSplit(x, m);
    UpAdd(Shl(q, l), Low(x[m], l), m);
    UpIsShl(Shl(q, l), m);
    ShlShl(q, l, 16 * m);
  }

  // Both roundings of x by a power of two, from what a right shift leaves.
  lemma FloorOfParts(x: seq<Digit>, m: nat, l: nat, q: int)
    requires m < |x| && Shl(q, l) + Low(x[m], l) == Val(x[m..])
    ensures FloorOf(q, Val(x), 16 * m + l)
    ensures FloorOf(if Lossless(x, m, l) then -q else -q - 1, -Val(x), 16 * m + l)
  {
    var n, r := 16 * m + l, Dropped(x, m, l);
    ShiftedParts(x, m, l, q);
    DroppedFits(x, m, l);
    FloorShift(Val(x), q, r, n);
  }

  lemma ShiftLeftParts(a: int, l: nat, k: nat)
    ensures Shl(a, 16 * l + k) == Up(Shl(a, k), l)
  {
    UpIsShl(Shl(a, k), l);
    ShlShl(a, k, 16 * l);
  }

  lemma ShiftedInto(p: seq<Digit>, l: nat, high: seq<Digit>)
    requires l <= |p| && p[l..] == high && forall i :: 0 <= i < l ==> p[i] == 0
    ensures Val(p) == Up(Val(high), l)
  {
    ValLowZeros(p, l);
  }

  // The copying loop of is.
  method CopyUp(digits: array<Digit>, used: nat, a: nat, q: array<Digit>)
    requires used <= digits.Length && q.Length == used + a && q != digits
    requires forall i :: 0 <= i < a ==> q[i] == 0
    modifies q
    ensures Val(q[..used + a]) == Up(Val(digits[..used]), a)
  {
    ghost var x := digits[..used];
    var p := used - 1;
    while p >= 0
      invariant -1 <= p < used
      invariant forall i :: p + 1 + a <= i < used + a ==> q[i] == digits[i - a]
      invariant forall i :: 0 <= i < a ==> q[i] == 0
    {
      q[p + a] := digits[p];
      p := p - 1;
    }
    ShiftedInto(q[..], a, x);
    assert q[..] == q[..used + a];
  }

  // A shift past the last digit leaves 0, or -1 for a negative number.
  lemma ShiftedOut(a: int, used: nat, n: nat)
    requires 0 <= a < Up(1, used) && 16 * used <= n
    ensures FloorOf(0, a, n)
    ensures a > 0 ==> FloorOf(-1, -a, n)
  {
    UpIsShl(1, used);
    ShlOne(16 * used);
    Pow2Grows(16 * used, n);
    ShlZero(n);
    FloorShift(a, 0, a, n);
  }

  // One pass of the loop of bI: add digit n of y, times x, at position n.
  method MultiplyRow(x: array<Digit>, l: nat, y: array<Digit>, k: nat, n: nat, p: array<Digit>)
    requires l <= x.Length && n < k <= y.Length && p.Length == l + k && p != x && p != y
    requires Val(p[..]) == Val(x[..l]) * Val(y[..n])
    modifies p
    ensures Val(p[..]) == Val(x[..l]) * Val(y[..n + 1])
  {
    ghost var before, row := p[..], y[n] * Val(x[..l]);
    assert y[..k][..n] == y[..n] && y[..k][..n + 1] == y[..n + 1];
    ProductFits(before, x[..l], y[..k], n);
    assert x[0..0 + l] == x[..l] && before[n..] == p[n..];
    MulAdd(y[n], x, 0, p, n, l);
    assert before[..n] == p[..][..n] && p[..][n..] == p[n..];
    AddRow(before, p[..], n, row);
    RowStep(Val(x[..l]), Val(y[..n]), y[n], n);
    ValTake(y[..k], n);
  }

  lemma {:induction false} UpIsShl(x: int, m: nat)
    ensures Up(x, m) == Shl(x, 16 * m)
  {
    if m > 0 {
      UpIsShl(x, m - 1);
      ShlShl(x, 16 * (m - 1), 16);
      ShlBy16(Shl(x, 16 * (m - 1)));
    }
  }

  lemma BitLengthFits(n: nat)
    requires n > 0
    ensures n < Up(1, (BitLength(n) - 1) / 16 + 1)
  {
    var size := (BitLength(n) - 1) / 16 + 1;
    BitLengthBound(n);
    Pow2Grows(BitLength(n), 16 * size);
    UpIsShl(1, size);
    ShlOne(16 * size);
  }

  lemma SignedProduct(x: int, y: int, nx: bool, ny: bool)
    ensures (if nx then -x else x) * (if ny then -y else y) == if nx != ny then -(x * y) else x * y
  {
  }

  // Row n of a product, on integers: lo and hi are the rows already added, cut
  // at digit n.
  lemma RowFits(a: int, v: int, d: Digit, lo: int, hi: int, n: nat, len: nat)
    requires 0 <= a < Up(1, len) && 0 <= v <= Up(1, n)
    requires 0 <= lo && lo + Up(hi, n) == a * v
    ensures hi + d * a < Up(1, len + 1)
  {
    MulOrder(a, v, Up(1, n));
    UpMul(a, 1, n);
    UpOrder(a, hi, n);
    MulOrder(a, d, 65535);
  }

  lemma RowStep(a: int, v: int, d: int, n: nat)
    ensures a * v + Up(d * a, n) == a * (v + Up(d, n))
  {
    UpMul(a, d, n);
    Distribute(a, v, Up(d, n));
  }

  // The next row of a product fits above the rows already added.
  lemma ProductFits(p: seq<Digit>, x: seq<Digit>, y: seq<Digit>, n: nat)
    requires n < |y| && |p| == |x| + |y|
    requires Val(p) == Val(x) * Val(y[..n])
    ensures Val(p[n..]) + y[n] * Val(x) < Up(1, |p| - n)
  {
    ValBound(x);
    ValBound(y[..n]);
    ValBound(p[..n]);
    ValSplit(p, n);
    RowFits(Val(x), Val(y[..n]), y[n], Val(p[..n]), Val(p[n..]), n, |x|);
    UpGrows(|x| + 1, |p| - n);
  }

  lemma AddRow(p: seq<Digit>, q: seq<Digit>, n: nat, row: int)
    requires n <= |p| == |q| && p[..n] == q[..n] && Val(q[n..]) == Val(p[n..]) + row
    ensures Val(q) == Val(p) + Up(row, n)
  {
    ValSplit(p, n);
    ValSplit(q, n);
    UpAdd(Val(p[n..]), row, n);
  }
}
