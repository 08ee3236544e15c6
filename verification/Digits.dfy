// Little-endian sequences of 16-bit digits and the integers they stand for.
// Scaling by a power of the base is written as repeated multiplication by the
// constant base, so that carry arguments stay linear.
module Digits {

  const BASE: nat := 65536

  type Digit = d: int | 0 <= d < 65536

  // x times the k-th power of the base
  function Up(x: int, k: nat): int {
    if k == 0 then x else 65536 * Up(x, k - 1)
  }

  // The integer the first k digits stand for, least significant digit first.
  ghost function ValTo(s: seq<Digit>, k: nat): int
    requires k <= |s|
  {
    if k == 0 then 0 else ValTo(s, k - 1) + Up(s[k - 1], k - 1)
  }

  // The integer a digit sequence stands for.
  ghost function Val(s: seq<Digit>): int {
    ValTo(s, |s|)
  }

  // ----- division with remainder

  lemma MulFar(d: int, k: int)
    requires d > 0
    ensures k == 0 || d * k >= d || d * k <= -d
  {
  }

  lemma DivModUnique(x: int, d: int, q: int, r: int)
    requires d > 0 && 0 <= r < d && x == d * q + r
    ensures x / d == q && x % d == r
  {
    var q', r' := x / d, x % d;
    assert x == d * q' + r';
    assert d * (q - q') == r' - r;
    MulFar(d, q - q');
  }

  // ----- scaling

  lemma {:induction false} UpAdd(x: int, y: int, k: nat)
    ensures Up(x + y, k) == Up(x, k) + Up(y, k)
  {
    if k > 0 { UpAdd(x, y, k - 1); }
  }

  lemma {:induction false} UpSub(x: int, y: int, k: nat)
    ensures Up(x - y, k) == Up(x, k) - Up(y, k)
  {
    if k > 0 { UpSub(x, y, k - 1); }
  }

  lemma {:induction false} UpUp(x: int, i: nat, j: nat)
    ensures Up(Up(x, i), j) == Up(x, i + j)
  {
    if j > 0 { UpUp(x, i, j - 1); }
  }

  lemma {:induction false} UpBase(x: int, k: nat)
    ensures Up(65536 * x, k) == Up(x, k + 1)
  {
    if k > 0 { UpBase(x, k - 1); }
  }

  lemma {:induction false} UpOrder(x: int, y: int, k: nat)
    ensures x < y <==> Up(x, k) < Up(y, k)
  {
    if k > 0 { UpOrder(x, y, k - 1); }
  }

  lemma {:induction false} UpZero(k: nat)
    ensures Up(0, k) == 0
  {
    if k > 0 { UpZero(k - 1); }
  }

  lemma {:induction false} UpMul(a: int, x: int, k: nat)
    ensures Up(a * x, k) == a * Up(x, k)
  {
    if k > 0 {
      UpMul(a, x, k - 1);
      BaseInside(a, Up(x, k - 1));
    }
  }

  lemma {:induction false} UpGrows(i: nat, j: nat)
    requires i <= j
    ensures 0 < Up(1, i) <= Up(1, j)
    decreases j
  {
    if i < j { UpGrows(i, j - 1); }
    else if i > 0 { UpGrows(i - 1, j - 1); }
  }

  lemma BaseInside(a: int, y: int)
    ensures 65536 * (a * y) == a * (65536 * y)
  {
  }

  // A quotient and remainder on scaled values.
  lemma UpSplit(hi: int, lo: int, x: int, k: nat)
    requires 0 <= lo < Up(1, k) && Up(hi, k) + lo < Up(x, k)
    ensures hi < x
  {
    if hi >= x {
      UpOrder(hi, x, k);
    }
  }

  lemma UpUnique(hi: int, lo: int, hi': int, lo': int, k: nat)
    requires 0 <= lo < Up(1, k) && 0 <= lo' < Up(1, k)
    requires Up(hi, k) + lo == Up(hi', k) + lo'
    ensures hi == hi' && lo == lo'
  {
    UpSub(hi, hi', k);
    UpOrder(hi - hi', 1, k);
    UpOrder(-1, hi - hi', k);
    UpSub(0, 1, k);
    UpZero(k);
  }

  // ----- values

  lemma {:induction false} ValToPrefix(s: seq<Digit>, t: seq<Digit>, k: nat)
    requires k <= |s| && k <= |t| && forall i :: 0 <= i < k ==> s[i] == t[i]
    ensures ValTo(s, k) == ValTo(t, k)
  {
    if k > 0 { ValToPrefix(s, t, k - 1); }
  }

  lemma ValTake(s: seq<Digit>, k: nat)
    requires k < |s|
    ensures Val(s[..k + 1]) == Val(s[..k]) + Up(s[k], k)
  {
    ValToPrefix(s[..k + 1], s[..k], k);
  }

  lemma ValInit(s: seq<Digit>)
    requires s != []
    ensures Val(s) == Val(s[..|s| - 1]) + Up(s[|s| - 1], |s| - 1)
  {
    ValToPrefix(s, s[..|s| - 1], |s| - 1);
  }

  lemma DigitRange(d: Digit, n: nat)
    ensures 0 <= Up(d, n) <= Up(1, n + 1) - Up(1, n)
  {
    UpZero(n);
    UpOrder(d, 0, n);
    UpAdd(65535, 1, n);
    UpOrder(65535, d, n);
    UpBase(1, n);
  }

  lemma {:induction false} ValBound(s: seq<Digit>)
    ensures 0 <= Val(s) < Up(1, |s|)
  {
    if s != [] {
      var n := |s| - 1;
      ValBound(s[..n]);
      ValInit(s);
      DigitRange(s[n], n);
    }
  }

  lemma {:induction false} ValConcat(s: seq<Digit>, t: seq<Digit>)
    ensures Val(s + t) == Val(s) + Up(Val(t), |s|)
  {
    if t == [] {
      assert s + t == s;
      UpZero(|s|);
    } else {
      var k := |t| - 1;
      var u := t[..k];
      ValConcat(s, u);
      assert (s + t)[..|s| + k] == s + u;
      ValInit(s + t);
      ValInit(t);
      UpUp(t[k], k, |s|);
      UpAdd(Val(u), Up(t[k], k), |s|);
    }
  }

  lemma ValSplit(s: seq<Digit>, k: nat)
    requires k <= |s|
    ensures Val(s) == Val(s[..k]) + Up(Val(s[k..]), k)
  {
    var lo, hi := s[..k], s[k..];
    assert s == lo + hi;
    ValConcat(lo, hi);
  }

  lemma ValSingle(d: Digit)
    ensures Val([d]) == d
  {
    assert ValTo([d], 1) == ValTo([d], 0) + Up(d, 0);
  }

  lemma ValCons(s: seq<Digit>)
    requires s != []
    ensures Val(s) == s[0] + BASE * Val(s[1..])
  {
    ValSplit(s, 1);
    assert s[..1] == [s[0]];
    ValSingle(s[0]);
    assert Up(Val(s[1..]), 1) == 65536 * Up(Val(s[1..]), 0);
  }

  lemma ValPrepend(d: Digit, s: seq<Digit>)
    ensures Val([d] + s) == d + BASE * Val(s)
  {
    ValCons([d] + s);
    assert ([d] + s)[1..] == s;
  }

  lemma {:induction false} ValZeros(s: seq<Digit>)
    requires forall i :: 0 <= i < |s| ==> s[i] == 0
    ensures Val(s) == 0
  {
    if s != [] {
      ValZeros(s[..|s| - 1]);
      ValInit(s);
      UpZero(|s| - 1);
    }
  }

  // High zero digits do not change the value.
  lemma ValTrim(s: seq<Digit>, k: nat)
    requires k <= |s| && forall i :: k <= i < |s| ==> s[i] == 0
    ensures Val(s[..k]) == Val(s)
  {
    ValSplit(s, k);
    ValZeros(s[k..]);
    UpZero(k);
  }

  // Low zero digits scale the value.
  lemma ValLowZeros(s: seq<Digit>, k: nat)
    requires k <= |s| && forall i :: 0 <= i < k ==> s[i] == 0
    ensures Val(s) == Up(Val(s[k..]), k)
  {
    ValSplit(s, k);
    ValZeros(s[..k]);
  }

  // A nonzero top digit makes the number at least its power.
  lemma ValTopDigit(s: seq<Digit>)
    requires s != [] && s[|s| - 1] != 0
    ensures Up(1, |s| - 1) <= Val(s)
  {
    var n := |s| - 1;
    ValBound(s[..n]);
    ValInit(s);
    UpOrder(s[n], 1, n);
  }

  // A nonzero value has a nonzero digit.
  lemma {:induction false} ValZeroDigits(s: seq<Digit>)
    requires Val(s) == 0
    ensures forall i :: 0 <= i < |s| ==> s[i] == 0
  {
    if s != [] {
      var n := |s| - 1;
      ValBound(s[..n]);
      ValInit(s);
      UpZero(n);
      UpOrder(0, s[n], n);
      ValZeroDigits(s[..n]);
      forall i | 0 <= i < n
        ensures s[i] == 0
      {
        assert s[i] == s[..n][i];
      }
    }
  }

  // Writing a value on two blocks of digits is unique.
  lemma ValSplitUnique(s: seq<Digit>, k: nat, lo: int, hi: int)
    requires k <= |s| && 0 <= lo < Up(1, k) && Val(s) == lo + Up(hi, k)
    ensures Val(s[..k]) == lo && Val(s[k..]) == hi
  {
    ValSplit(s, k);
    ValBound(s[..k]);
    UpUnique(hi, lo, Val(s[k..]), Val(s[..k]), k);
  }

  // Digits are determined by the value.
  lemma {:induction false} ValInjective(s: seq<Digit>, t: seq<Digit>)
    requires |s| == |t| && Val(s) == Val(t)
    ensures s == t
  {
    if s != [] {
      var n := |s| - 1;
      ValBound(s[..n]);
      ValBound(t[..n]);
      ValInit(s);
      ValInit(t);
      UpUnique(s[n], Val(s[..n]), t[n], Val(t[..n]), n);
      ValInjective(s[..n], t[..n]);
      assert s == s[..n] + [s[n]] && t == t[..n] + [t[n]];
    }
  }
}
