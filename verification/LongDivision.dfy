// Long division of digit arrays: the quotient-digit estimate, one step of the
// quotient loop, and the loop itself.
module LongDivision {
  import opened Bits
  import opened Digits
  import opened DigitLoops
  import opened DigitShifts

  // ----- the quotient-digit estimate

  lemma MulCancel(x: int, y: int, a: int)
    requires a > 0 && x * a < y * a
    ensures x < y
  {
    if x >= y {
      MulOrder(a, y, x);
    }
  }

  // vS: the two top digits of the remainder over the top digit of the divisor
  function Estimate(k: Digit, u1: Digit, u0: Digit): Digit
    requires k > 0
  {
    if u1 == k then 65535
    else
      var q := Or(Shl(u1, 16), u0) / k;
      if q > 65535 then 65535 else q
  }

  lemma TwoDigits(u1: Digit, u0: Digit)
    ensures Or(Shl(u1, 16), u0) == Word(u1, u0)
  {
    Pow2Of16();
    ShlBy16(u1);
    OrDisjoint(u1, u0, 16);
  }

  lemma QuotientOrder(w: nat, k: nat)
    requires k > 0
    ensures (w / k) * k <= w < (w / k + 1) * k
  {
  }

  lemma EstimateRange(k: Digit, u1: Digit, u0: Digit)
    requires k > 0
    ensures var d, w := Estimate(k, u1, u0), Word(u1, u0);
            d * k <= w && (d < 65535 ==> w < (d + 1) * k)
  {
    var w := Word(u1, u0);
    TwoDigits(u1, u0);
    QuotientOrder(w, k);
    if u1 != k && w / k > 65535 {
      MulOrder(k, 65535, w / k);
    }
  }

  // The estimate is never too small: t / v is at most d.
  lemma EstimateNotTooSmall(k: int, rest: int, w: int, low: int, n: nat, d: int, q: int)
    requires 0 <= rest && 0 <= low < Up(1, n) && d >= 0
    requires w < (d + 1) * k
    requires var v, t := Up(k, n) + rest, Up(w, n) + low; v > 0 && q * v <= t
    ensures q <= d
  {
    var v, t := Up(k, n) + rest, Up(w, n) + low;
    UpAdd(w, 1, n);
    UpMonotone(w + 1, (d + 1) * k, n);
    UpMul(d + 1, k, n);
    MulOrder(d + 1, Up(k, n), v);
    MulCancel(q, d + 1, v);
  }

  // It is at most two too large when the top divisor digit has its high bit.
  lemma EstimateNotTooLarge(k: int, rest: int, w: int, low: int, n: nat, d: int, q: int)
    requires 32768 <= k && 0 <= rest < Up(1, n) && 0 <= low && 0 <= d <= 65535
    requires d * k <= w
    requires var v, t := Up(k, n) + rest, Up(w, n) + low; t < (q + 1) * v
    ensures d <= q + 2
  {
    var v, t := Up(k, n) + rest, Up(w, n) + low;
    if q + 1 <= d - 2 {
      UpMonotone(d * k, w, n);
      UpMul(d, k, n);
      UpOrder(0, k, n);
      UpZero(n);
      MulOrder(v, q + 1, d - 2);
      Distribute(d - 2, Up(k, n), rest);
      MulOrder(rest, d - 2, 65536);
      SplitTwo(d, Up(k, n));
      UpAdd(k, k, n);
      UpMonotone(65536, 2 * k, n);
      UpBase(1, n);
    }
  }

  lemma SplitTwo(d: int, x: int)
    ensures d * x == (d - 2) * x + 2 * x
  {
  }

  // Two digits side by side.
  function Word(u1: Digit, u0: Digit): nat {
    65536 * u1 as nat + u0 as nat
  }

  lemma EstimateBothWays(k: Digit, rest: int, u1: Digit, u0: Digit, low: int, n: nat, v: int, t: int, q: int)
    requires 32768 <= k && 0 <= rest < Up(1, n) && 0 <= low < Up(1, n)
    requires v == Up(k, n) + rest && t == Up(Word(u1, u0), n) + low
    requires q * v <= t < (q + 1) * v && 0 <= q <= 65535
    ensures q <= Estimate(k, u1, u0) <= q + 2
  {
    var d, w := Estimate(k, u1, u0), Word(u1, u0);
    EstimateRange(k, u1, u0);
    UpOrder(0, k, n);
    UpZero(n);
    if d < 65535 {
      EstimateNotTooSmall(k, rest, w, low, n, d, q);
    }
    EstimateNotTooLarge(k, rest, w, low, n, d, q);
  }

  lemma TopTwo(s: seq<Digit>, n: nat)
    requires |s| == n + 2
    ensures Val(s) == Val(s[..n]) + Up(Word(s[n + 1], s[n]), n)
  {
    ValTake(s, n + 1);
    ValTake(s, n);
    assert s[..n + 2] == s;
    UpBase(s[n + 1], n);
    UpAdd(65536 * s[n + 1] as nat, s[n], n);
  }

  // For a normalised divisor y and a remainder s below 65536 times it, the
  // estimate from their top digits is the quotient digit, or up to 2 above it.
  lemma EstimateBounds(y: seq<Digit>, s: seq<Digit>, v: int, t: int, q: int)
    requires |y| > 0 && |s| == |y| + 1 && y[|y| - 1] >= 32768
    requires v == Val(y) && t == Val(s)
    requires q * v <= t < (q + 1) * v && 0 <= q <= 65535
    ensures q <= Estimate(y[|y| - 1], s[|y|], s[|y| - 1]) <= q + 2
  {
    var n := |y| - 1;
    ValTake(y, n);
    assert y[..n + 1] == y;
    TopTwo(s, n);
    ValBound(y[..n]);
    ValBound(s[..n]);
    EstimateBothWays(y[n], Val(y[..n]), s[n + 1], s[n], Val(s[..n]), n, v, t, q);
  }

  // ----- changing a window of digits

  // A change that fits in the k low digits leaves the digits above alone.
  lemma WindowChanged(s: seq<Digit>, t: seq<Digit>, k: nat, x: int)
    requires k <= |s| == |t| && Val(t) == Val(s) + x
    requires 0 <= Val(s[..k]) + x < Up(1, k)
    ensures Val(t[..k]) == Val(s[..k]) + x && t[k..] == s[k..]
  {
    ValSplit(s, k);
    ValSplitUnique(t, k, Val(s[..k]) + x, Val(s[k..]));
    ValInjective(s[k..], t[k..]);
  }

  lemma FitsAbove(lo: int, hi: int, k: nat, r: nat, x: int)
    requires lo + x < Up(1, k) && hi < Up(1, r)
    ensures lo + Up(hi, k) + x < Up(1, r + k)
  {
    UpAdd(hi, 1, k);
    UpMonotone(hi + 1, Up(1, r), k);
    UpUp(1, r, k);
  }

  lemma WindowFits(s: seq<Digit>, k: nat, x: int)
    requires k <= |s| && Val(s[..k]) + x < Up(1, k)
    ensures Val(s) + x < Up(1, |s|)
  {
    var lo, hi := s[..k], s[k..];
    ValSplit(s, k);
    ValBound(hi);
    FitsAbove(Val(lo), Val(hi), k, |hi|, x);
  }

  // Subtracting a number scaled by j digits leaves the j low digits alone.
  lemma ScaledChange(s: seq<Digit>, t: seq<Digit>, j: nat, x: int)
    requires j <= |s| == |t| && Val(t) == Val(s) - Up(x, j)
    ensures t[..j] == s[..j] && Val(t[j..]) == Val(s[j..]) - x
  {
    var lo, hi, low := s[..j], s[j..], t[..j];
    assert Val(t) == Val(lo) + Up(Val(hi) - x, j) by {
      ValSplit(s, j);
      UpSub(Val(hi), x, j);
    }
    ValBound(lo);
    ValSplitUnique(t, j, Val(lo), Val(hi) - x);
    assert Val(low) == Val(lo);
    ValInjective(lo, low);
  }

  lemma ScaledBound(s: seq<Digit>, j: nat, k: nat, x: int)
    requires j + k <= |s| && x <= Val(s[j..j + k])
    ensures Up(x, j) <= Val(s) && Val(s[j..][..k]) == Val(s[j..j + k])
  {
    assert s[j..][..k] == s[j..j + k];
    ValSplit(s[j..], k);
    ValBound(s[j..][k..]);
    UpZero(k);
    UpMonotone(0, Val(s[j..][k..]), k);
    UpMonotone(x, Val(s[j..]), j);
    ValSplit(s, j);
    ValBound(s[..j]);
  }

  // m[j..j+n+1] += d * f[..n], by ri
  method AddAt(d: Digit, f: array<Digit>, m: array<Digit>, j: nat, n: nat)
    requires f != m && n <= f.Length && j + n < m.Length
    requires Val(m[j..j + n + 1]) + d * Val(f[..n]) < Up(1, n + 1)
    modifies m
    ensures Val(m[j..j + n + 1]) == old(Val(m[j..j + n + 1])) + d * Val(f[..n])
    ensures m[..j] == old(m[..j]) && m[j + n + 1..] == old(m[j + n + 1..])
  {
    ghost var s, x := m[j..], d * Val(f[..n]);
    assert s[..n + 1] == m[j..j + n + 1] && s[n + 1..] == m[j + n + 1..];
    assert f[0..0 + n] == f[..n];
    WindowFits(s, n + 1, x);
    ValBound(f[..n]);
    MulOrder(d, 0, Val(f[..n]));
    ValBound(s[..n + 1]);
    MulAdd(d, f, 0, m, j, n);
    ghost var t := m[j..];
    WindowChanged(s, t, n + 1, x);
    assert t[..n + 1] == m[j..j + n + 1] && t[n + 1..] == m[j + n + 1..];
  }

  lemma SubWindow(s: seq<Digit>, t: seq<Digit>, j: nat, k: nat, x: int)
    requires j + k <= |s| == |t| && Val(t) == Val(s) - Up(x, j)
    requires 0 <= x <= Val(s[j..j + k])
    ensures t[..j] == s[..j] && t[j + k..] == s[j + k..]
    ensures Val(t[j..j + k]) == Val(s[j..j + k]) - x
  {
    ScaledChange(s, t, j, x);
    var hs, ht := s[j..], t[j..];
    assert hs[..k] == s[j..j + k] && ht[..k] == t[j..j + k];
    ValBound(hs[..k]);
    WindowChanged(hs, ht, k, -x);
    assert hs[k..] == s[j + k..] && ht[k..] == t[j + k..];
  }

  // m[j..j+n+1] -= x, by ja, where i[..h] holds x moved up by j digits
  method SubAt(m: array<Digit>, g: nat, i: array<Digit>, h: nat, ghost j: nat, ghost n: nat, ghost x: int)
    requires m != i && j + n + 1 <= g <= m.Length && h <= i.Length && h <= g
    requires Val(i[..h]) == Up(x, j) && 0 <= x <= Val(m[j..j + n + 1])
    modifies m
    ensures Val(m[j..j + n + 1]) == old(Val(m[j..j + n + 1])) - x
    ensures m[..j] == old(m[..j]) && m[j + n + 1..g] == old(m[j + n + 1..g])
  {
    ghost var s := m[..g];
    assert s[j..j + n + 1] == m[j..j + n + 1];
    ScaledBound(s, j, n + 1, x);
    AbsSub(m, g, i, h, m);
    SubWindow(s, m[..g], j, n + 1, x);
    assert m[..g][..j] == m[..j] && s[..j] == old(m[..j]);
    assert m[..g][j..j + n + 1] == m[j..j + n + 1];
    assert m[..g][j + n + 1..] == m[j + n + 1..g] && s[j + n + 1..] == old(m[j + n + 1..g]);
  }

  // ----- one quotient digit

  // The top digit of t - d * y + d * BASE^n says whether d is too large.
  lemma TopDigitTest(low: int, top: Digit, t: int, y: int, d: Digit, n: nat)
    requires 0 <= low < Up(1, n) && 0 < y < Up(1, n) && 0 <= t
    requires low + Up(top, n) == t + d * (Up(1, n) - y)
    requires t < (d + 1) * y
    ensures top < d <==> t < d * y
    ensures top >= d ==> top == d && low == t - d * y
  {
    DistributeMinus(d, Up(1, n), y);
    UpMul(d, 1, n);
    SuccTimes(d, y);
    hide Up;
    if t >= d * y {
      UpUnique(top, low, d, t - d * y, n);
    } else {
      UpOrder(top, d, n);
    }
  }

  lemma DistributeMinus(a: int, x: int, y: int)
    ensures a * (x - y) == a * x - a * y
  {
  }

  lemma SuccTimes(d: int, y: int)
    ensures (d + 1) * y == d * y + y && (d - 1) * y == d * y - y
  {
  }

  lemma EstimateSumFits(t: int, y: int, d: Digit, q: int, n: nat)
    requires 0 < y < Up(1, n) && t < (q + 1) * y && q <= d
    ensures t + d * (Up(1, n) - y) < Up(1, n + 1)
    ensures t < (d + 1) * y
  {
    MulOrder(y, q + 1, d + 1);
    SuccTimes(d, y);
    DistributeMinus(d, Up(1, n), y);
    UpMul(d, 1, n);
    hide Up;
    UpAdd(d, 1, n);
    UpMonotone(d + 1, 65536, n);
    UpBase(1, n);
  }

  lemma QuotientDigit(t: int, y: int)
    requires y > 0 && 0 <= t < 65536 * y
    ensures var q := t / y; q * y <= t < (q + 1) * y && 0 <= q <= 65535
  {
    var q := t / y;
    assert t == y * q + t % y;
    assert q * y == y * q;
    SuccTimes(q, y);
    MulCancel(q, 65536, y);
    MulCancel(-1, q, y);
  }

  // The n + 1 digits from j after d times the complement of y has been added
  // to t there, where d is the quotient digit of t by y or above it.
  ghost predicate Trial(s: seq<Digit>, n: nat, t: int, y: int, d: int) {
    && |s| == n + 1 && 0 <= t && 0 < y < Up(1, n)
    && Val(s) == t + d * (Up(1, n) - y)
    && t < (d + 1) * y
  }

  lemma TrialTop(s: seq<Digit>, n: nat, t: int, y: int, d: Digit)
    requires Trial(s, n, t, y, d)
    ensures s[n] < d <==> t < d * y
    ensures s[n] >= d ==> s[n] == d && Val(s[..n]) == t - d * y && 0 <= Val(s[..n]) < y
  {
    ValInit(s);
    ValBound(s[..n]);
    TopDigitTest(Val(s[..n]), s[n], t, y, d, n);
    SuccTimes(d, y);
  }

  lemma TrialDown(s: seq<Digit>, s': seq<Digit>, n: nat, t: int, y: int, d: Digit)
    requires Trial(s, n, t, y, d) && s[n] < d && |s'| == n + 1
    ensures 0 <= Up(1, n) - y <= Val(s)
    ensures Val(s') == Val(s) - (Up(1, n) - y) ==> Trial(s', n, t, y, d - 1)
  {
    TrialTop(s, n, t, y, d);
    MulCancel(0, d, y);
    var c := Up(1, n) - y;
    SuccTimes(d, c);
    MulOrder(c, 0, d - 1);
  }

  lemma TrialDone(s: seq<Digit>, n: nat, t: int, y: int, d: Digit)
    requires Trial(s, n, t, y, d) && s[n] >= d
    ensures s[n] == d && Val(s[..n]) == t - d * y && 0 <= Val(s[..n]) < y
  {
    TrialTop(s, n, t, y, d);
  }

  // One correction: the trial digit d is too large by at least one.
  method GiveBack(m: array<Digit>, g: nat, i: array<Digit>, h: nat, ghost j: nat, ghost n: nat,
                  d: Digit, ghost t: int, ghost y: int) returns (d': Digit)
    requires m != i && j + n < g <= m.Length && h <= i.Length && h <= g
    requires Trial(m[j..j + n + 1], n, t, y, d) && m[j + n] < d
    requires Val(i[..h]) == Up(Up(1, n) - y, j)
    modifies m
    ensures d' == d - 1 && Trial(m[j..j + n + 1], n, t, y, d')
    ensures m[..j] == old(m[..j]) && m[j + n + 1..g] == old(m[j + n + 1..g])
  {
    ghost var s, c := m[j..j + n + 1], Up(1, n) - y;
    TrialDown(s, s, n, t, y, d);
    SubAt(m, g, i, h, j, n, c);
    TrialDown(s, m[j..j + n + 1], n, t, y, d);
    d' := d - 1;
  }

  // The correction loop of fd: give back the divisor while the digit stored at
  // e = j + n shows that the trial digit d is too large.
  method CorrectDigit(d0: Digit, f: array<Digit>, m: array<Digit>, g: nat, i: array<Digit>,
                      j: nat, n: nat, ghost t: int, ghost y: int) returns (d: Digit)
    requires f != m && f != i && m != i && n > 0
    requires n <= f.Length && Val(f[..n]) == Up(1, n) - y
    requires j + n < g <= m.Length && j + n <= i.Length
    requires Trial(m[j..j + n + 1], n, t, y, d0)
    modifies m, i
    ensures m[..j] == old(m[..j]) && m[j + n + 1..g] == old(m[j + n + 1..g])
    ensures m[j + n] == d && Val(m[j..j + n]) == t - d * y && 0 <= Val(m[j..j + n]) < y
  {
    var e := j + n;
    d := d0;
    if m[e] < d {
      var h := MoveUp(f, n, j, i);
      while m[e] < d
        invariant Trial(m[j..e + 1], n, t, y, d)
        invariant m[..j] == old(m[..j]) && m[e + 1..g] == old(m[e + 1..g])
        invariant Val(i[..h]) == Up(Up(1, n) - y, j)
        decreases d
      {
        d := GiveBack(m, g, i, h, j, n, d, t, y);
      }
    }
    TrialDone(m[j..e + 1], n, t, y, d);
    assert m[j..e + 1][..n] == m[j..e];
  }

  // The two facts about the estimate: adding it fits, and it is off by 2 at most.
  lemma EstimateStarts(ys: seq<Digit>, s: seq<Digit>, n: nat, d: Digit)
    requires n > 0 && |ys| == n && ys[n - 1] >= 32768 && |s| == n + 1
    requires Val(s) < 65536 * Val(ys)
    requires d == Estimate(ys[n - 1], s[n], s[n - 1])
    ensures 0 <= Val(s) && 0 < Val(ys) < Up(1, n)
    ensures Val(s) + d * (Up(1, n) - Val(ys)) < Up(1, n + 1)
    ensures Val(s) < (d + 1) * Val(ys)
    ensures forall q: int :: 0 <= Val(s) - q * Val(ys) < Val(ys) ==> q <= d <= q + 2
  {
    var y, t := Val(ys), Val(s);
    DivisorRange(ys);
    ValBound(s);
    QuotientDigit(t, y);
    EstimateBounds(ys, s, y, t, t / y);
    EstimateSumFits(t, y, d, t / y, n);
    forall q: int | 0 <= t - q * y < y
      ensures q == t / y
    {
      assert q * y == y * q;
      DivModUnique(t, y, q, t - q * y);
    }
  }

  // The body of the quotient loop of fd, for the digit e = j + n.  It leaves
  // the quotient digit of the n + 1 digits from j in m[e] and the remainder
  // below it, after at most two corrections of the estimate.
  method QuotientStep(k: Digit, f: array<Digit>, m: array<Digit>, g: nat, i: array<Digit>,
                      j: nat, n: nat, ghost ys: seq<Digit>) returns (ghost corrections: nat)
    requires f != m && f != i && m != i
    requires n > 0 && |ys| == n && ys[n - 1] == k >= 32768
    requires n <= f.Length && Val(f[..n]) == Up(1, n) - Val(ys)
    requires j + n < g <= m.Length && j + n <= i.Length
    requires Val(m[j..j + n + 1]) < 65536 * Val(ys)
    modifies m, i
    ensures m[..j] == old(m[..j]) && m[j + n + 1..g] == old(m[j + n + 1..g])
    ensures Val(m[j..j + n]) == old(Val(m[j..j + n + 1])) - m[j + n] * Val(ys)
    ensures 0 <= Val(m[j..j + n]) < Val(ys)
    ensures corrections <= 2
  {
    var e := j + n;
    ghost var s := m[j..e + 1];
    var d := Estimate(k, m[e], m[e - 1]);
    EstimateStarts(ys, s, n, d);
    AddAt(d, f, m, j, n);
    assert m[e + 1..g] == m[e + 1..][..g - e - 1];
    var q := CorrectDigit(d, f, m, g, i, j, n, Val(s), Val(ys));
    corrections := d - q;
  }

  lemma DivisorRange(ys: seq<Digit>)
    requires ys != [] && ys[|ys| - 1] > 0
    ensures 0 < Val(ys) < Up(1, |ys|)
  {
    ValBound(ys);
    ValTopDigit(ys);
    UpGrows(0, |ys| - 1);
  }

  // ----- the quotient loop

  // Quotient digits from j + n up to l, remainder digits below j + n.
  ghost predicate Divided(m: seq<Digit>, n: nat, l: nat, j: nat, x: int, y: int) {
    && j + n <= l < |m|
    && 0 <= Val(m[..j + n]) < Up(y, j)
    && x == Up(Val(m[j + n..l + 1]) * y, j) + Val(m[..j + n])
  }

  lemma DividedWindow(m: seq<Digit>, n: nat, l: nat, j: nat, x: int, y: int)
    requires j > 0 && Divided(m, n, l, j, x, y)
    ensures Val(m[j - 1..j + n]) < 65536 * y
    ensures Val(m[..j + n]) == Val(m[..j - 1]) + Up(Val(m[j - 1..j + n]), j - 1)
  {
    var r := m[..j + n];
    ValSplit(r, j - 1);
    assert r[..j - 1] == m[..j - 1] && r[j - 1..] == m[j - 1..j + n];
    ValBound(m[..j - 1]);
    UpBase(y, j - 1);
    UpSplit(Val(m[j - 1..j + n]), Val(m[..j - 1]), 65536 * y, j - 1);
  }

  lemma DividedArithmetic(x: int, y: int, q: int, t: int, low: int, d: int, j: nat)
    requires x == Up(q * y, j + 1) + low + Up(t, j)
    requires 0 <= low < Up(1, j) && 0 <= t - d * y < y
    ensures x == Up((d + 65536 * q) * y, j) + (low + Up(t - d * y, j))
    ensures 0 <= low + Up(t - d * y, j) < Up(y, j)
  {
    var a, b := d * y, q * y;
    assert (d + 65536 * q) * y == a + 65536 * b;
    UpAdd(a, 65536 * b, j);
    UpBase(b, j);
    UpSub(t, a, j);
    UpAdd(t - a, 1, j);
    UpMonotone(t - a + 1, y, j);
    UpMonotone(0, t - a, j);
    UpZero(j);
  }

  lemma DividedStep(s: seq<Digit>, m: seq<Digit>, n: nat, l: nat, j: nat, x: int, y: int)
    requires Divided(s, n, l, j + 1, x, y) && |m| == |s|
    requires m[..j] == s[..j] && m[j + n + 1..l + 1] == s[j + n + 1..l + 1]
    requires Val(m[j..j + n]) == Val(s[j..j + n + 1]) - m[j + n] * y
    requires 0 <= Val(m[j..j + n]) < y
    ensures Divided(m, n, l, j, x, y)
  {
    DividedWindow(s, n, l, j + 1, x, y);
    var q, t, low, d := Val(s[j + n + 1..l + 1]), Val(s[j..j + n + 1]), Val(s[..j]), m[j + n];
    ValBound(s[..j]);
    DividedArithmetic(x, y, q, t, low, d, j);
    assert m[j + n..l + 1] == [d] + m[j + n + 1..l + 1];
    ValPrepend(d, m[j + n + 1..l + 1]);
    assert m[..j + n] == m[..j] + m[j..j + n];
    ValConcat(m[..j], m[j..j + n]);
  }

  method QuotientLoop(o: array<Digit>, n: nat, f: array<Digit>, m: array<Digit>, l: nat, i: array<Digit>,
                      ghost x: int)
    requires f != m && f != i && m != i && o != m && o != i
    requires 0 < n <= o.Length && o[n - 1] >= 32768
    requires n <= f.Length && Val(f[..n]) == Up(1, n) - Val(o[..n])
    requires n <= l < m.Length && l <= i.Length
    requires Divided(m[..], n, l, l - n, x, Val(o[..n]))
    modifies m, i
    ensures Divided(m[..], n, l, 0, x, Val(o[..n]))
  {
    var k := o[n - 1];
    ghost var ys := o[..n];
    var j := l - n;
    while j > 0
      invariant 0 <= j <= l - n
      invariant o[..n] == ys && Val(f[..n]) == Up(1, n) - Val(ys)
      invariant Divided(m[..], n, l, j, x, Val(ys))
    {
      ghost var s := m[..];
      DividedWindow(s, n, l, j, x, Val(ys));
      j := j - 1;
      assert s[j..j + n + 1] == m[j..j + n + 1];
      ghost var corrections := QuotientStep(k, f, m, l + 1, i, j, n, ys);
      assert m[..][j..j + n] == m[j..j + n] && m[..][..j] == m[..j] && m[..][j + n + 1..l + 1] == m[j + n + 1..l + 1];
      DividedStep(s, m[..], n, l, j, x, Val(ys));
    }
  }

  // ----- normalising

  // Shifting the top digit to its highest bit keeps the number of digits and
  // makes the new top digit at least half the base.
  lemma Normalised(xs: seq<Digit>, t: seq<Digit>, p: nat)
    requires xs != [] && xs[|xs| - 1] != 0 && p + BitLength(xs[|xs| - 1]) == 16
    requires |xs| <= |t| <= |xs| + 1 && t[|t| - 1] != 0
    requires Val(t) == Shl(Val(xs), p)
    ensures |t| == |xs| && t[|t| - 1] >= 32768
  {
    var n := |xs| - 1;
    var top := xs[n];
    ValInit(xs);
    ValBound(xs[..n]);
    BitLengthBound(top);
    UpAdd(top, 1, n);
    NormalisedRange(top, Val(xs), n, p);
    if |t| == |xs| + 1 {
      ValTopDigit(t);
    }
    ValInit(t);
    ValBound(t[..n]);
    if t[n] < 32768 {
      UpAdd(t[n], 1, n);
      UpMonotone(t[n] as int + 1, 32768, n);
    }
  }

  lemma NormalisedRange(top: Digit, v: int, n: nat, p: nat)
    requires top > 0 && p + BitLength(top) == 16
    requires Up(top, n) <= v < Up(top as int + 1, n)
    ensures Up(32768, n) <= Shl(v, p) < Up(1, n + 1)
  {
    hide Up, Shl, BitLength;
    var b := BitLength(top);
    BitLengthBound(top);
    Pow2Of16();
    Pow2Sum(b, p);
    Pow2Sum(b - 1, p);
    ShlMonotone(Pow2(b - 1), top, p);
    ShlMonotone(top as int + 1, Pow2(b), p);
    ShlUp(top, p, n);
    ShlUp(top as int + 1, p, n);
    ShlMonotone(Up(top, n), v, p);
    ShlMonotone(Up(top as int + 1, n), v, p);
    UpMonotone(32768, Shl(top, p), n);
    UpMonotone(Shl(top as int + 1, p), 65536, n);
    UpBase(1, n);
  }

  // The complement f of the divisor: f[..n] stands for BASE^n - y.
  method Complement(o: array<Digit>, n: nat) returns (f: array<Digit>)
    requires 0 < n <= o.Length && o[n - 1] > 0
    ensures fresh(f) && f.Length == n + 2
    ensures Val(f[..n]) == Up(1, n) - Val(o[..n])
  {
    f := new Digit[n + 2](_ => 0);
    f[n] := 1;
    ghost var ys := o[..n];
    DivisorRange(ys);
    ValInit(f[..n + 1]);
    ValZeros(f[..n + 1][..n]);
    AbsSub(f, n + 1, o, n, f);
    ghost var t := f[..n + 1];
    ValSplitUniqueLow(t, n, Up(1, n) - Val(ys));
    assert t[..n] == f[..n];
  }

  lemma ValSplitUniqueLow(t: seq<Digit>, k: nat, v: int)
    requires k <= |t| && Val(t) == v && 0 <= v < Up(1, k)
    ensures Val(t[..k]) == v
  {
    UpZero(k);
    ValSplitUnique(t, k, v, 0);
  }

  // The top quotient digit, 0 or 1, found by one comparison.
  method TopQuotientDigit(m: array<Digit>, l: nat, i: array<Digit>, h: nat, n: nat, ghost y: int)
    requires m != i && n <= l < m.Length && h == l <= i.Length
    requires Val(i[..h]) == Up(y, l - n) && Up(1, n) <= 2 * y
    modifies m
    ensures Divided(m[..], n, l, l - n, old(Val(m[..l])), y)
  {
    ghost var x, j := Val(m[..l]), l - n;
    ghost var lo := m[..l];
    ValBound(lo);
    TopQuotientRange(x, y, n, j);
    var o := CompareDigits(m, l, i, h);
    if o >= 0 {
      m[l] := 1;
      ValTake(m[..], l);
      assert m[..][..l] == lo && m[..][..l + 1] == m[..l + 1];
      AbsSub(m, l + 1, i, h, m);
      ghost var t := m[..l + 1];
      ValSplitUnique(t, l, x - Up(y, j), 1);
      assert t[..l] == m[..][..l] && t[l..] == m[..][l..l + 1];
    } else {
      m[l] := 0;
      assert m[..][..l] == lo && m[..][l..l + 1] == [0];
      ValSingle(0);
      UpZero(j);
    }
  }

  lemma TopQuotientRange(x: int, y: int, n: nat, j: nat)
    requires 0 <= x < Up(1, n + j) && Up(1, n) <= 2 * y
    ensures x < 2 * Up(y, j)
    ensures Up(y, j) <= x ==> 0 <= x - Up(y, j) < Up(1, n + j)
  {
    UpUp(1, n, j);
    UpMonotone(Up(1, n), 2 * y, j);
    UpMul(2, y, j);
    UpGrows(0, n);
    UpMonotone(0, y, j);
    UpZero(j);
  }

  // The start of fd: both numbers moved up by p bits, so that the divisor's
  // top digit has its high bit.
  method Normalise(a: array<Digit>, b: nat, s: array<Digit>, r: nat)
    returns (m: array<Digit>, l: nat, o: array<Digit>, n: nat, p: nat)
    requires 0 < r <= b <= a.Length && r <= s.Length
    requires a[b - 1] != 0 && s[r - 1] != 0
    ensures fresh(m) && m != o && p < 16
    ensures 0 < n <= l < m.Length && n <= o.Length && o[n - 1] >= 32768
    ensures Val(m[..l]) == Shl(Val(a[..b]), p) && Val(o[..n]) == Shl(Val(s[..r]), p)
  {
    TopDigitBits(s[r - 1]);
    p := 16 - BitLength(s[r - 1]);
    if p > 0 {
      o := new Digit[r + 5](_ => 0);
      n := ShiftUpTrimmed(s, r, 0, p, o);
      m := new Digit[b + 5](_ => 0);
      l := ShiftUpTrimmed(a, b, 0, p, m);
    } else {
      m := CloneRange(a, 0, b, b + 2);
      n := r;
      o := s;
      l := b;
      assert m[..l] == a[0..b] == a[..b];
    }
    Normalised(s[..r], o[..n], p);
  }

  // fd without its cache: m[n..g] is the quotient and m[..n] the remainder of
  // the two numbers, both moved up by p bits.
  method DivideDigits(a: array<Digit>, b: nat, s: array<Digit>, r: nat)
    returns (m: array<Digit>, g: nat, n: nat, p: nat)
    requires 0 < r <= b <= a.Length && r <= s.Length
    requires a[b - 1] != 0 && s[r - 1] != 0
    ensures fresh(m) && 0 < n < g <= m.Length && p < 16
    ensures var x, y := Shl(Val(a[..b]), p), Shl(Val(s[..r]), p);
            x == Val(m[n..g]) * y + Val(m[..n]) && 0 <= Val(m[..n]) < y
  {
    var o: array<Digit>, l;
    m, l, o, n, p := Normalise(a, b, s, r);
    ghost var x, y := Val(m[..l]), Val(o[..n]);
    ValTopDigitHalf(o[..n]);
    var j := l - n;
    var i := new Digit[l](_ => 0);
    var h := MoveUp(o, n, j, i);
    g := l + 1;
    TopQuotientDigit(m, l, i, h, n, y);
    var f := Complement(o, n);
    QuotientLoop(o, n, f, m, l, i, x);
    assert m[..][n..g] == m[n..g] && m[..][..n] == m[..n];
  }

  lemma TopDigitBits(d: Digit)
    requires d > 0
    ensures 0 < BitLength(d) <= 16
  {
    BitLengthBound(d);
    Pow2Of16();
    if BitLength(d) > 16 {
      Pow2Grows(16, BitLength(d) - 1);
    }
  }

  lemma ValTopDigitHalf(ys: seq<Digit>)
    requires ys != [] && ys[|ys| - 1] >= 32768
    ensures Up(1, |ys|) <= 2 * Val(ys)
  {
    var n := |ys| - 1;
    ValInit(ys);
    ValBound(ys[..n]);
    UpMonotone(32768, ys[n], n);
    UpMul(2, 32768, n);
    UpBase(1, n);
  }
}
