// Truncating quotient and remainder, with the cache of the last division.
module BigIntDivision {
  import opened Bits
  import opened Digits
  import opened DigitShifts
  import opened LongDivision
  import opened BigInts

  function AbsOf(x: int): nat {
    if x < 0 then -x else x
  }

  // Division rounding towards zero; the remainder has the dividend's sign.
  function TruncDiv(x: int, y: int): int
    requires y != 0
  {
    var q := AbsOf(x) / AbsOf(y);
    if (x < 0) != (y < 0) then -q else q
  }

  function TruncRem(x: int, y: int): int
    requires y != 0
  {
    var r := AbsOf(x) % AbsOf(y);
    if x < 0 then -r else r
  }

  lemma TruncDivision(x: int, y: int)
    requires y != 0
    ensures x == TruncDiv(x, y) * y + TruncRem(x, y)
    ensures AbsOf(TruncRem(x, y)) < AbsOf(y)
    ensures TruncRem(x, y) == 0 || (TruncRem(x, y) < 0 <==> x < 0)
  {
    var a, b := AbsOf(x), AbsOf(y);
    var q := a / b;
    assert a == b * q + a % b;
    SignedProduct(q, b, (x < 0) != (y < 0), y < 0);
    assert q * b == b * q;
  }

  // Moving both numbers up by p bits scales the remainder and keeps the quotient.
  lemma UnshiftedDivision(x: int, y: int, q: int, r: int, p: nat)
    requires 0 <= x && 0 < y
    requires Shl(x, p) == q * Shl(y, p) + r && 0 <= r < Shl(y, p)
    ensures q == x / y && r == Shl(x % y, p)
  {
    ScaledShl(q, y, p);
    hide Shl;
    var qy := q * y;
    UnshiftedRemainder(x, qy, y, r, p);
    assert y * q == qy;
    DivModUnique(x, y, q, x - qy);
  }

  lemma UnshiftedRemainder(x: int, qy: int, y: int, r: int, p: nat)
    requires Shl(x, p) == Shl(qy, p) + r && 0 <= r < Shl(y, p)
    ensures 0 <= x - qy < y && r == Shl(x - qy, p)
  {
    ShlZero(p);
    hide Shl;
    ShlAdd(x, -qy, p);
    NegShl(qy, p);
    ShlMonotone(0, x - qy, p);
    ShlMonotone(y, x - qy, p);
  }

  lemma {:induction false} ScaledShl(q: int, y: int, p: nat)
    ensures q * Shl(y, p) == Shl(q * y, p)
  {
    if p > 0 {
      ScaledShl(q, y, p - 1);
      DoubleInside(q, Shl(y, p - 1));
    }
  }

  // m[n..g] is the quotient of x by y, and m[..n] the remainder moved up by p.
  ghost predicate Divides(m: seq<Digit>, g: nat, n: nat, p: nat, x: int, y: int) {
    && 0 < n < g <= |m| && 0 <= x && 0 < y
    && Val(m[n..g]) == x / y
    && Val(m[..n]) == Shl(x % y, p)
  }

  // The static fields that remember the last division.
  class DivisionCache {
    var lastDividend: array?<Digit>
    var lastDividendUsed: nat
    var lastDivisor: array?<Digit>
    var lastDivisorUsed: nat
    var lastQuoRem: array?<Digit>
    var lastQuoRemUsed: nat
    var lastRemUsed: nat
    var lastShift: nat

    constructor ()
      ensures Valid() && lastDividend == null
    {
      lastDividend, lastDivisor, lastQuoRem := null, null, null;
      lastDividendUsed, lastDivisorUsed, lastQuoRemUsed, lastRemUsed, lastShift := 0, 0, 0, 0, 0;
    }

    // What is remembered is still the division of the remembered digits.
    ghost predicate Valid()
      reads this, lastDividend, lastDivisor, lastQuoRem
    {
      lastDividend != null ==>
        && lastDivisor != null && lastQuoRem != null
        && lastDividendUsed <= lastDividend.Length && lastDivisorUsed <= lastDivisor.Length
        && Divides(lastQuoRem[..], lastQuoRemUsed, lastRemUsed, lastShift,
                   Val(lastDividend[..lastDividendUsed]), Val(lastDivisor[..lastDivisorUsed]))
    }

    // fd: the cache answers for a and b, whether it did already or not.
    method Divide(a: BigInt, b: BigInt) returns (m: array<Digit>)
      requires Valid() && a.Valid() && b.Valid() && 0 < b.used <= a.used
      modifies this
      ensures Valid() && m == lastQuoRem
      ensures Divides(m[..], lastQuoRemUsed, lastRemUsed, lastShift, a.Abs(), b.Abs())
    {
      if lastDividend != null && a.used == lastDividendUsed && b.used == lastDivisorUsed
         && a.digits == lastDividend && b.digits == lastDivisor {
        return lastQuoRem;
      }
      hide Val, Shl;
      var g, n, p;
      m, g, n, p := DivideDigits(a.digits, a.used, b.digits, b.used);
      a.SignOfValue();
      DivisorRange(b.digits[..b.used]);
      UnshiftedDivision(a.Abs(), b.Abs(), Val(m[n..g]), Val(m[..n]), p);
      assert m[..][n..g] == m[n..g] && m[..][..n] == m[..n];
      assert Divides(m[..], g, n, p, a.Abs(), b.Abs());
      hide Divides;
      lastDividend, lastDividendUsed := a.digits, a.used;
      lastDivisor, lastDivisorUsed := b.digits, b.used;
      lastQuoRem, lastQuoRemUsed, lastRemUsed, lastShift := m, g, n, p;
    }

    // ir
    method Quotient(a: BigInt, b: BigInt) returns (r: BigInt)
      requires Valid() && a.Valid() && b.Valid() && b.Value() != 0
      modifies this
      ensures Valid() && r.Valid() && r.Value() == TruncDiv(a.Value(), b.Value())
    {
      a.SignOfValue();
      b.SignOfValue();
      if a.used < b.used {
        SmallerDividend(a, b);
        r := BigInt.FromSmall(0);
        return;
      }
      r := AbsQuotient(a, b);
      r.SignOfValue();
      if a.neg != b.neg && r.used > 0 {
        r := r.Negate();
      }
    }

    method AbsQuotient(a: BigInt, b: BigInt) returns (r: BigInt)
      requires Valid() && a.Valid() && b.Valid() && 0 < b.used <= a.used
      modifies this
      ensures Valid() && b.Abs() > 0
      ensures r.Valid() && r.Value() == a.Abs() / b.Abs()
    {
      var m := Divide(a, b);
      var s := lastQuoRemUsed - lastRemUsed;
      var d := CloneRange(m, lastRemUsed, lastQuoRemUsed, s);
      assert m[..][lastRemUsed..lastQuoRemUsed] == d[..s];
      r := BigInt.Trim(false, s, d);
    }

    // j6
    method Remainder(a: BigInt, b: BigInt) returns (r: BigInt)
      requires Valid() && a.Valid() && b.Valid() && b.Value() != 0
      modifies this
      ensures Valid() && r.Valid() && r.Value() == TruncRem(a.Value(), b.Value())
    {
      a.SignOfValue();
      b.SignOfValue();
      if a.used < b.used {
        SmallerDividend(a, b);
        return a;
      }
      r := AbsRemainder(a, b);
      r.SignOfValue();
      if a.neg && r.used > 0 {
        r := r.Negate();
      }
    }

    method AbsRemainder(a: BigInt, b: BigInt) returns (r: BigInt)
      requires Valid() && a.Valid() && b.Valid() && 0 < b.used <= a.used
      modifies this
      ensures Valid() && b.Abs() > 0
      ensures r.Valid() && r.Value() == a.Abs() % b.Abs()
    {
      var m := Divide(a, b);
      var d := CloneRange(m, 0, lastRemUsed, lastRemUsed);
      assert m[..][..lastRemUsed] == m[0..lastRemUsed] == d[..lastRemUsed];
      var q := BigInt.Trim(false, lastRemUsed, d);
      if lastShift > 0 {
        r := q.ShiftRightBy(lastShift);
        ShiftBack(r.Value(), a.Abs() % b.Abs(), lastShift);
      } else {
        r := q;
      }
    }
  }

  // A dividend with fewer digits is its own remainder.
  lemma SmallerDividend(a: BigInt, b: BigInt)
    requires a.Valid() && b.Valid() && a.used < b.used
    ensures 0 <= a.Abs() < b.Abs()
    ensures a.Abs() / b.Abs() == 0 && a.Abs() % b.Abs() == a.Abs()
  {
    a.SignOfValue();
    LongerIsLarger(b.digits[..b.used], a.digits[..a.used]);
    DivModUnique(a.Abs(), b.Abs(), 0, a.Abs());
  }

  lemma ShiftBack(y: int, r: int, n: nat)
    requires FloorOf(y, Shl(r, n), n)
    ensures y == r
  {
    NegShl(y, n);
    ShlAdd(r, -y, n);
    ShlOne(n);
    ShlZero(n);
    ShlMonotone(0, r - y, n);
    ShlMonotone(1, r - y, n);
  }
}
