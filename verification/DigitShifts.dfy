// Comparing, trimming and shifting digit arrays.
module DigitShifts {
  import opened Bits
  import opened Digits

  // ----- b0: the number of digits left after dropping high zeros

  method UsedDigits(n: nat, b: array<Digit>) returns (used: nat)
    requires n <= b.Length
    ensures used <= n && (used > 0 ==> b[used - 1] != 0)
    ensures Val(b[..used]) == Val(b[..n])
  {
    used := n;
    while used > 0 && b[used - 1] == 0
      invariant used <= n
      invariant forall i :: used <= i < n ==> b[i] == 0
    {
      used := used - 1;
    }
    ValTrim(b[..n], used);
    assert b[..n][..used] == b[..used];
  }

  // ----- mB: the sign of a[..b] - c[..d]

  lemma TopDigitDecides(x: seq<Digit>, y: seq<Digit>, k: nat)
    requires k < |x| && k < |y|
    ensures x[k] < y[k] ==> Val(x[..k + 1]) < Val(y[..k + 1])
    ensures x[k] == y[k] ==> Val(x[..k + 1]) - Val(y[..k + 1]) == Val(x[..k]) - Val(y[..k])
  {
    ValTake(x, k);
    ValTake(y, k);
    ValBound(x[..k]);
    ValBound(y[..k]);
    if x[k] < y[k] {
      UpAdd(x[k], 1, k);
      UpOrder(x[k] + 1, y[k], k);
      UpOrder(y[k], x[k] + 1, k);
    }
  }

  // The longer of two trimmed numbers is the larger.
  lemma LongerIsLarger(x: seq<Digit>, y: seq<Digit>)
    requires |x| > |y| && x[|x| - 1] != 0
    ensures Val(x) > Val(y)
  {
    ValTopDigit(x);
    ValBound(y);
    UpGrows(|y|, |x| - 1);
  }

  predicate SameSign(r: int, diff: int) {
    (r < 0 <==> diff < 0) && (r == 0 <==> diff == 0)
  }

  method CompareDigits(a: array<Digit>, b: nat, c: array<Digit>, d: nat) returns (r: int)
    requires b <= a.Length && d <= c.Length
    requires b != d ==> (b > 0 ==> a[b - 1] != 0) && (d > 0 ==> c[d - 1] != 0)
    ensures SameSign(r, Val(a[..b]) - Val(c[..d]))
  {
    r := b - d;
    if r == 0 {
      ghost var xs, ys := a[..], c[..];
      var s := b;
      while s > 0
        invariant 0 <= s <= b
        invariant Val(xs[..b]) - Val(ys[..b]) == Val(xs[..s]) - Val(ys[..s])
      {
        s := s - 1;
        r := a[s] as int - c[s] as int;
        TopDigitDecides(xs, ys, s);
        TopDigitDecides(ys, xs, s);
        if r != 0 {
          assert xs[..b] == a[..b] && ys[..b] == c[..b];
          return;
        }
      }
      assert xs[..b] == a[..b] && ys[..b] == c[..b];
    } else if r > 0 {
      LongerIsLarger(a[..b], c[..d]);
    } else {
      LongerIsLarger(c[..d], a[..b]);
    }
  }

  // ----- pp: a fresh copy of a[b..c] on d digits

  method CloneRange(a: array<Digit>, b: nat, c: nat, d: nat) returns (p: array<Digit>)
    requires b <= c <= a.Length && c - b <= d
    ensures fresh(p) && p.Length == d
    ensures p[..c - b] == a[b..c]
    ensures forall i :: c - b <= i < d ==> p[i] == 0
  {
    p := new Digit[d](_ => 0);
    var r := 0;
    while r < c - b
      invariant 0 <= r <= c - b
      invariant p[..r] == a[b..b + r]
      invariant forall i :: c - b <= i < d ==> p[i] == 0
    {
      p[r] := a[b + r];
      r := r + 1;
    }
  }

  // ----- pq: d := a[..b] moved up by c digits

  method MoveUp(a: array<Digit>, b: nat, c: nat, d: array<Digit>) returns (h: nat)
    requires b <= a.Length && b + c <= d.Length
    modifies d
    ensures h == (if b == 0 then 0 else b + c)
    ensures Val(d[..h]) == old(Up(Val(a[..b]), c))
    ensures forall i :: b + c <= i < d.Length ==> d[i] == old(d[i])
  {
    if b == 0 {
      UpZero(c);
      return 0;
    }
    if c == 0 && d == a {
      return b;
    }
    ghost var xs := a[..b];
    var s := b - 1;
    while s >= 0
      invariant -1 <= s < b
      invariant forall i :: 0 <= i <= s ==> a[i] == xs[i]
      invariant forall i :: s < i - c < b ==> d[i] == xs[i - c]
      invariant forall i :: b + c <= i < d.Length ==> d[i] == old(d[i])
    {
      d[s + c] := a[s];
      s := s - 1;
    }
    s := c - 1;
    while s >= 0
      invariant -1 <= s < c
      invariant forall i :: c <= i < b + c ==> d[i] == xs[i - c]
      invariant forall i :: s < i < c ==> d[i] == 0
      invariant forall i :: b + c <= i < d.Length ==> d[i] == old(d[i])
    {
      d[s] := 0;
      s := s - 1;
    }
    MovedUp(d[..b + c], xs, c);
    return b + c;
  }

  lemma MovedUp(d: seq<Digit>, xs: seq<Digit>, c: nat)
    requires |d| == |xs| + c
    requires forall i :: 0 <= i < c ==> d[i] == 0
    requires forall i :: c <= i < |d| ==> d[i] == xs[i - c]
    ensures Val(d) == Up(Val(xs), c)
  {
    ValLowZeros(d, c);
    assert d[c..] == xs;
  }

  // ----- shifting one digit

  lemma Pow2Of16()
    ensures Pow2(16) == 65536
  {
    assert Pow2(8) == 256;
    Pow2Sum(8, 8);
  }

  lemma {:induction false} Pow2Sum(i: nat, j: nat)
    ensures Pow2(i + j) == Shl(Pow2(i), j)
  {
    if j > 0 { Pow2Sum(i, j - 1); }
  }

  lemma ShlBy16(x: int)
    ensures Shl(x, 16) == 65536 * x
  {
    ShlIsMul(x, 16);
    Pow2Of16();
  }

  // The k high bits and the 16-k low bits of a digit, and where they land when
  // the digit moves up by k.
  lemma DigitUp(o: Digit, k: nat)
    requires 0 < k < 16
    ensures Shl(o, k) == BASE * Shr(o, 16 - k) + Shl(Low(o, 16 - k), k)
    ensures Shr(o, 16 - k) < Pow2(k)
    ensures 0 <= Shl(Low(o, 16 - k), k) <= BASE - Pow2(k)
  {
    var j := 16 - k;
    var hi, lo := Shr(o, j), Low(o, j);
    SplitBits(o, j);
    ShlAdd(Shl(hi, j), lo, k);
    ShlShl(hi, j, k);
    ShlBy16(hi);
    Pow2Of16();
    Pow2Sum(k, j);
    Pow2Sum(j, k);
    ShlMonotone(hi, Pow2(k) - 1, j);
    ShlMonotone(Pow2(k), hi, j);
    ShlAdd(lo, 1, k);
    ShlMonotone(lo + 1, Pow2(j), k);
    Pow2Sum(0, k);
  }

  // ----- rh: d[l..] := a[..b] << k, where c == 16 * l + k

  lemma ShiftUpDigit(a: seq<Digit>, s: nat, k: nat, high: int, p: int)
    requires s < |a| && 0 < k < 16
    requires Shl(Val(a[s + 1..]), k) == BASE * high + p
    ensures Shl(Val(a[s..]), k)
         == BASE * (BASE * high + p + Shr(a[s], 16 - k)) + Shl(Low(a[s], 16 - k), k)
  {
    ValCons(a[s..]);
    assert a[s..][1..] == a[s + 1..];
    var v := Val(a[s + 1..]);
    ShlAdd(a[s], BASE * v, k);
    ShlBase(v, k);
    DigitUp(a[s], k);
  }

  lemma {:induction false} ShlBase(v: int, k: nat)
    ensures Shl(65536 * v, k) == 65536 * Shl(v, k)
  {
    if k > 0 { ShlBase(v, k - 1); }
  }

  lemma Pow2Below16(k: nat)
    requires k < 16
    ensures 2 * Pow2(k) <= 65536
  {
    Pow2Of16();
    Pow2Sum(k + 1, 15 - k);
    ShlMonotone(1, Pow2(15 - k), k + 1);
    Pow2Sum(0, k + 1);
    Pow2Sum(15 - k, k + 1);
  }

  // The word stored by rh: the carried high part or-ed with the bits moved in.
  function UpWord(o: Digit, p: nat, k: nat): nat
    requires 0 < k < 16
  {
    Or(Shr(o, 16 - k), p)
  }

  lemma UpWordIsSum(o: Digit, low: nat, k: nat)
    requires 0 < k < 16 && Shl(low, k) <= BASE - Pow2(k)
    ensures UpWord(o, Shl(low, k), k) == Shl(low, k) + Shr(o, 16 - k) < BASE
  {
    DigitUp(o, k);
    OrDisjoint(low, Shr(o, 16 - k), k);
  }

  // Storing a digit just below d[n+1..top].
  method StoreBelow(d: array<Digit>, n: nat, ghost top: nat, w: Digit)
    requires n < top <= d.Length
    modifies d
    ensures Val(d[n..top]) == w + BASE * old(Val(d[n + 1..top]))
    ensures forall i :: 0 <= i < n ==> d[i] == old(d[i])
    ensures d[top..] == old(d[top..])
  {
    ghost var high := d[n + 1..top];
    d[n] := w;
    assert d[n..top] == [w] + high;
    ValPrepend(w, high);
  }

  // The digits of xs from s on, moved up by k bits, stand for high digits
  // already stored and a carry p whose k low bits are still free.
  ghost predicate UpState(xs: seq<Digit>, s: nat, k: nat, high: int, p: int) {
    && s <= |xs| && 0 < k < 16
    && Shl(Val(xs[s..]), k) == BASE * high + p
    && 0 <= p <= BASE - Pow2(k)
    && exists low: nat :: p == Shl(low, k)
  }

  lemma UpStateStart(xs: seq<Digit>, k: nat)
    requires 0 < k < 16
    ensures UpState(xs, |xs|, k, 0, 0)
  {
    ShlZero(k);
    Pow2Below16(k);
  }

  lemma UpStateStep(xs: seq<Digit>, s: nat, k: nat, high: int, p: nat)
    requires s < |xs| && UpState(xs, s + 1, k, high, p)
    ensures UpWord(xs[s], p, k) < BASE
    ensures UpState(xs, s, k, UpWord(xs[s], p, k) + BASE * high, Shl(And(xs[s], Pow2(16 - k) - 1), k))
  {
    var low: nat :| p == Shl(low, k);
    UpWordIsSum(xs[s], low, k);
    ShiftUpDigit(xs, s, k, high, p);
    AndLowMask(xs[s], 16 - k);
    DigitUp(xs[s], k);
  }

  method ShiftUp(a: array<Digit>, b: nat, l: nat, k: nat, d: array<Digit>)
    requires b <= a.Length && 0 < k < 16 && b + l < d.Length && a != d
    modifies d
    ensures Val(d[l..b + l + 1]) == Shl(Val(a[..b]), k)
    ensures d[..l] == old(d[..l]) && d[b + l + 1..] == old(d[b + l + 1..])
  {
    ghost var xs, top := a[..b], b + l + 1;
    var p: Digit, s := 0, b;
    UpStateStart(xs, k);
    assert d[top..top] == [];
    while s > 0
      invariant 0 <= s <= b
      invariant UpState(xs, s, k, Val(d[s + l + 1..top]), p)
      invariant d[..l] == old(d[..l]) && d[top..] == old(d[top..])
    {
      s := s - 1;
      var o := a[s];
      var n := s + l + 1;
      UpStateStep(xs, s, k, Val(d[n + 1..top]), p);
      StoreBelow(d, n, top, UpWord(o, p, k));
      p := Shl(And(o, Pow2(16 - k) - 1), k);
    }
    StoreBelow(d, l, top, p);
    assert xs[0..] == xs;
  }

  lemma {:induction false} ShlZero(k: nat)
    ensures Shl(0, k) == 0
  {
    if k > 0 { ShlZero(k - 1); }
  }

  // ----- rc: d := a[..b] << (16 * l + k), and the number of digits it uses

  method ShiftUpTrimmed(a: array<Digit>, b: nat, l: nat, k: nat, d: array<Digit>) returns (used: nat)
    requires 0 < b <= a.Length && a[b - 1] != 0 && k < 16 && b + l < d.Length && a != d
    modifies d
    ensures b + l <= used <= b + l + 1 && d[used - 1] != 0
    ensures Val(d[..used]) == Up(Shl(old(Val(a[..b])), k), l)
  {
    if k == 0 {
      used := MoveUp(a, b, l, d);
      ShiftedTop(d[..used], used, b + l, old(a[..b]), l, k);
      return;
    }
    ghost var xs := a[..b];
    var s := b + l + 1;
    ShiftUp(a, b, l, k, d);
    ghost var high := d[l..s];
    var q := l - 1;
    while q >= 0
      invariant -1 <= q < l
      invariant forall i :: q < i < l ==> d[i] == 0
      invariant d[l..s] == high
    {
      d[q] := 0;
      q := q - 1;
    }
    assert d[..s][l..] == high;
    ValLowZeros(d[..s], l);
    var r := s - 1;
    used := s;
    if d[r] == 0 {
      used := r;
      ValTrim(d[..s], r);
      assert d[..s][..r] == d[..r];
    }
    ShiftedTop(d[..used], used, b + l, xs, l, k);
  }

  // A shifted trimmed number reaches at least its moved-up top digit.
  lemma ShiftedTop(t: seq<Digit>, used: nat, n: nat, xs: seq<Digit>, l: nat, k: nat)
    requires xs != [] && xs[|xs| - 1] != 0 && n == |xs| + l
    requires used == |t| && n <= used <= n + 1
    requires Val(t) == Up(Shl(Val(xs), k), l)
    ensures used == n ==> t[used - 1] != 0
  {
    if used == n && t[n - 1] == 0 {
      ValTopDigit(xs);
      ValBound(xs);
      ShlGrows(Val(xs), k);
      UpMonotone(Up(1, |xs| - 1), Shl(Val(xs), k), l);
      UpUp(1, |xs| - 1, l);
      ValTrim(t, n - 1);
      ValBound(t[..n - 1]);
    }
  }

  lemma {:induction false} ShlGrows(x: nat, k: nat)
    ensures x <= Shl(x, k)
  {
    if k > 0 { ShlGrows(x, k - 1); }
  }

  lemma UpMonotone(x: int, y: int, k: nat)
    requires x <= y
    ensures Up(x, k) <= Up(y, k)
  {
    UpOrder(y, x, k);
  }

  // ----- vV: d := a[m..b] >> l, where the shift amount is 16 * m + l

  // The word stored by vV: the low bits of the next digit moved up, or-ed with
  // the bits left over from the digit below.
  function DownWord(n: Digit, s: nat, l: nat): nat
    requires 0 < l < 16
  {
    Or(Shl(And(n, Pow2(l) - 1), 16 - l), s)
  }

  lemma DownWordIsSum(n: Digit, s: nat, l: nat)
    requires 0 < l < 16 && s < Pow2(16 - l)
    ensures DownWord(n, s, l) == Shl(Low(n, l), 16 - l) + s < BASE
  {
    AndLowMask(n, l);
    OrDisjoint(Low(n, l), s, 16 - l);
    DigitUp(n, 16 - l);
  }

  // The digits of xs below p + 1 stand for digits already stored plus the bits
  // s left over, with the low l bits of the first digit dropped.
  ghost predicate DownState(xs: seq<Digit>, p: nat, l: nat, stored: int, s: int) {
    && p < |xs| && 0 < l < 16
    && Shl(stored + Up(s, p), l) + Low(xs[0], l) == Val(xs[..p + 1])
    && 0 <= s < Pow2(16 - l)
  }

  lemma DownStateStart(xs: seq<Digit>, l: nat)
    requires xs != [] && 0 < l < 16
    ensures DownState(xs, 0, l, 0, Shr(xs[0], l))
  {
    SplitBits(xs[0], l);
    assert xs[..1] == [xs[0]];
    ValSingle(xs[0]);
    DigitUp(xs[0], 16 - l);
  }

  lemma {:induction false} ShlUp(x: int, k: nat, p: nat)
    ensures Shl(Up(x, p), k) == Up(Shl(x, k), p)
  {
    if p > 0 {
      ShlUp(x, k, p - 1);
      ShlBase(Up(x, p - 1), k);
    }
  }

  // The two parts of a digit, each moved to where vV stores it.
  lemma DownDigit(n: Digit, l: nat, p: nat)
    requires 0 < l < 16
    ensures Shl(Up(Shl(Low(n, l), 16 - l), p) + Up(Shr(n, l), p + 1), l) == Up(n, p + 1)
  {
    var lo, hi := Low(n, l), Shr(n, l);
    var y := Shl(lo, 16 - l) + 65536 * hi;
    SplitBits(n, l);
    ShlShl(lo, 16 - l, l);
    ShlBy16(lo);
    ShlBase(hi, l);
    ShlAdd(Shl(lo, 16 - l), 65536 * hi, l);
    assert Shl(y, l) == 65536 * n;
    UpBase(hi, p);
    UpAdd(Shl(lo, 16 - l), 65536 * hi, p);
    ShlUp(y, l, p);
    UpBase(n, p);
  }

  lemma DownStateStep(xs: seq<Digit>, p: nat, l: nat, stored: int, s: nat)
    requires p + 1 < |xs| && DownState(xs, p, l, stored, s)
    ensures DownWord(xs[p + 1], s, l) < BASE
    ensures DownState(xs, p + 1, l, stored + Up(DownWord(xs[p + 1], s, l), p), Shr(xs[p + 1], l))
  {
    var n := xs[p + 1];
    var o := Shl(Low(n, l), 16 - l);
    var hi := Shr(n, l);
    DownWordIsSum(n, s, l);
    UpAdd(o, s, p);
    ShlAdd(stored + Up(s, p), Up(o, p) + Up(hi, p + 1), l);
    DownDigit(n, l, p);
    ValTake(xs, p + 1);
    DigitUp(n, 16 - l);
  }

  method ShiftDown(a: array<Digit>, b: nat, m: nat, l: nat, d: array<Digit>)
    requires m < b <= a.Length && 0 < l < 16 && b - m <= d.Length && a != d
    modifies d
    ensures Shl(Val(d[..b - m]), l) + Low(a[m], l) == Val(a[m..b])
    ensures d[b - m..] == old(d[b - m..])
  {
    ghost var xs, rest := a[m..b], d[b - m..];
    var s := Shr(a[m], l);
    var r := b - m - 1;
    var p := 0;
    DownStateStart(xs, l);
    while p < r
      invariant 0 <= p <= r
      invariant DownState(xs, p, l, Val(d[..p]), s)
      invariant d[b - m..] == rest
    {
      var n := a[p + m + 1];
      DownStateStep(xs, p, l, Val(d[..p]), s);
      StoreAbove(d, p, DownWord(n, s, l));
      s := Shr(n, l);
      p := p + 1;
    }
    Pow2Below16(16 - l);
    StoreAbove(d, r, s);
    assert xs[..r + 1] == xs;
  }

  method StoreAbove(d: array<Digit>, n: nat, w: Digit)
    requires n < d.Length
    modifies d
    ensures Val(d[..n + 1]) == old(Val(d[..n])) + Up(w, n)
    ensures d[n + 1..] == old(d[n + 1..])
  {
    ghost var below := d[..n];
    d[n] := w;
    ValTake(d[..n + 1], n);
    assert d[..n + 1][..n] == below && d[..n + 1][..n + 1] == d[..n + 1];
  }
}
