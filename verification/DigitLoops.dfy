// The digit loops of the big-integer core.  Every routine writes its result
// digit by digit into an array; its contract states the integer written.
module DigitLoops {
  import opened Digits

  // ----- one column of carry propagation

  // The digits of t below k, with carry p into position k, stand for total.
  ghost predicate Partial(t: seq<Digit>, k: nat, p: int, total: int) {
    k <= |t| && Val(t[..k]) + Up(p, k) == total
  }

  lemma UpDivMod(x: int, k: nat)
    ensures Up(x, k) == Up(x % 65536, k) + Up(x / 65536, k + 1)
  {
    UpAdd(65536 * (x / 65536), x % 65536, k);
    UpBase(x / 65536, k);
  }

  // Writing the low digit of p + col and carrying the rest adds col at k.
  lemma PartialStep(s: seq<Digit>, t: seq<Digit>, k: nat, p: int, col: int, total: int)
    requires k < |s| && t == s[k := (p + col) % BASE]
    requires Partial(s, k, p, total)
    ensures Partial(t, k + 1, (p + col) / BASE, total + Up(col, k))
  {
    assert t[..k] == s[..k];
    ValTake(t, k);
    UpAdd(p, col, k);
    UpDivMod(p + col, k);
  }

  // Storing the last carry as a digit completes the number.
  lemma PartialStore(s: seq<Digit>, t: seq<Digit>, k: nat, p: Digit, total: int)
    requires k < |s| && t == s[k := p]
    requires Partial(s, k, p, total)
    ensures Val(t[..k + 1]) == total
  {
    assert t[..k] == s[..k];
    ValTake(t, k);
  }

  lemma SumColumn(a: seq<Digit>, c: seq<Digit>, k: nat)
    requires k < |a| && k < |c|
    ensures Val(a[..k + 1]) + Val(c[..k + 1]) == Val(a[..k]) + Val(c[..k]) + Up(a[k] as int + c[k] as int, k)
    ensures Val(a[..k + 1]) - Val(c[..k + 1]) == Val(a[..k]) - Val(c[..k]) + Up(a[k] as int - c[k] as int, k)
  {
    ValTake(a, k);
    ValTake(c, k);
    UpAdd(a[k], c[k], k);
    UpSub(a[k], c[k], k);
  }

  // The store shared by the digit loops: e[o] := t % BASE, where t is the carry
  // plus this column.
  method StoreColumn(e: array<Digit>, o: nat, t: int, ghost p: int, ghost total: int)
    requires o < e.Length && Partial(e[..], o, p, total)
    modifies e
    ensures e[..] == old(e[..])[o := t % BASE]
    ensures e[o + 1..] == old(e[o + 1..])
    ensures Partial(e[..], o + 1, t / BASE, total + Up(t - p, o))
  {
    ghost var s := e[..];
    e[o] := t % BASE;
    assert e[..] == s[o := e[o]];
    PartialStep(s, e[..], o, p, t - p, total);
  }

  // ----- vR: e[..b+1] := a[..b] + c[..d]

  method AbsAdd(a: array<Digit>, b: nat, c: array<Digit>, d: nat, e: array<Digit>)
    requires d <= b <= a.Length && d <= c.Length && b < e.Length
    requires e != a && e != c
    modifies e
    ensures Val(e[..b + 1]) == old(Val(a[..b]) + Val(c[..d]))
    ensures e[b + 1..] == old(e[b + 1..])
  {
    ghost var xs, ys, rest := a[..], c[..], e[b + 1..];
    var p, o := 0, 0;
    while o < d
      invariant 0 <= o <= d && 0 <= p <= 1
      invariant Partial(e[..], o, p, Val(xs[..o]) + Val(ys[..o]))
      invariant e[b + 1..] == rest
    {
      ghost var carry := p;
      p := p + a[o] + c[o];
      StoreColumn(e, o, p, carry, Val(xs[..o]) + Val(ys[..o]));
      p := p / BASE;
      SumColumn(xs, ys, o);
      o := o + 1;
    }
    while o < b
      invariant d <= o <= b && 0 <= p <= 1
      invariant Partial(e[..], o, p, Val(xs[..o]) + Val(ys[..d]))
      invariant e[b + 1..] == rest
    {
      ghost var carry := p;
      p := p + a[o];
      StoreColumn(e, o, p, carry, Val(xs[..o]) + Val(ys[..d]));
      p := p / BASE;
      ValTake(xs, o);
      o := o + 1;
    }
    ghost var s := e[..];
    e[b] := p;
    assert e[..] == s[b := e[b]];
    PartialStore(s, e[..], b, p, Val(xs[..b]) + Val(ys[..d]));
    assert e[..][..b + 1] == e[..b + 1] && a[..b] == xs[..b] && c[..d] == ys[..d];
  }

  // ----- ja: e[..b] := a[..b] - c[..d], possibly in place (e == a)

  lemma PartialDone(t: seq<Digit>, k: nat, p: int, total: int)
    requires Partial(t, k, p, total) && -1 <= p <= 0
    ensures Val(t[..k]) == if total < 0 then total + Up(1, k) else total
  {
    ValBound(t[..k]);
    UpSub(0, 1, k);
    UpZero(k);
  }

  // The borrow left by a column is the floor of its value by the base.
  lemma BorrowStep(t: int)
    requires -65536 <= t < 65536
    ensures 0 - (t / BASE) % 2 == t / BASE && -1 <= t / BASE <= 0
  {
  }

  method AbsSub(a: array<Digit>, b: nat, c: array<Digit>, d: nat, e: array<Digit>)
    requires d <= b <= a.Length && d <= c.Length && b <= e.Length
    requires e != c
    modifies e
    // a difference below zero wraps around
    ensures var diff := old(Val(a[..b]) - Val(c[..d]));
            Val(e[..b]) == if diff < 0 then diff + Up(1, b) else diff
    ensures e[b..] == old(e[b..])
  {
    ghost var xs, ys, rest := a[..], c[..], e[b..];
    var p, o := 0, 0;
    while o < d
      invariant 0 <= o <= d && -1 <= p <= 0
      invariant Partial(e[..], o, p, Val(xs[..o]) - Val(ys[..o]))
      invariant a[o..] == xs[o..]
      invariant e[b..] == rest
    {
      ghost var carry := p;
      assert a[o] == a[o..][0] == xs[o];
      p := p + a[o] - c[o];
      StoreColumn(e, o, p, carry, Val(xs[..o]) - Val(ys[..o]));
      assert a[o + 1..] == xs[o..][1..];
      BorrowStep(p);
      p := 0 - (p / BASE) % 2;
      SumColumn(xs, ys, o);
      o := o + 1;
    }
    while o < b
      invariant d <= o <= b && -1 <= p <= 0
      invariant Partial(e[..], o, p, Val(xs[..o]) - Val(ys[..d]))
      invariant a[o..] == xs[o..]
      invariant e[b..] == rest
    {
      ghost var carry := p;
      assert a[o] == a[o..][0] == xs[o];
      p := p + a[o];
      StoreColumn(e, o, p, carry, Val(xs[..o]) - Val(ys[..d]));
      assert a[o + 1..] == xs[o..][1..];
      BorrowStep(p);
      p := 0 - (p / BASE) % 2;
      ValTake(xs, o);
      o := o + 1;
    }
    PartialDone(e[..], b, p, Val(xs[..b]) - Val(ys[..d]));
    assert e[..][..b] == e[..b] && old(a[..b]) == xs[..b] && old(c[..d]) == ys[..d];
  }

  // ----- ri: d[e..] += a * b[c..c+f]

  // Every intermediate of a multiply-add column fits in 32 bits, and the carry
  // it leaves is a single digit.
  lemma MulAddColumn(a: Digit, n: Digit, x: Digit, p: Digit)
    ensures 0 <= a * n <= 65535 * 65535
    ensures 0 <= a * n + x + p < 0x1_0000_0000
    ensures (a * n + x + p) / BASE < BASE
  {
    ProductRange(a, n);
  }

  lemma ProductRange(a: Digit, n: Digit)
    ensures 0 <= a * n <= 65535 * 65535
  {
    MulOrder(a, 0, n);
    MulOrder(a, n, 65535);
  }

  lemma MulOrder(a: int, x: int, y: int)
    requires 0 <= a && x <= y
    ensures a * x <= a * y && x * a <= y * a
  {
  }

  lemma ProductColumn(b: seq<Digit>, k: nat, a: int)
    requires k < |b|
    ensures a * Val(b[..k + 1]) == a * Val(b[..k]) + Up(a * b[k], k)
  {
    ValTake(b, k);
    UpMul(a, b[k], k);
    Distribute(a, Val(b[..k]), Up(b[k], k));
  }

  lemma Distribute(a: int, x: int, y: int)
    ensures a * (x + y) == a * x + a * y
  {
  }

  // Below k the addend has been absorbed into s; from k on s is still s0.
  ghost predicate Absorbed(s: seq<Digit>, s0: seq<Digit>, k: nat, p: int, addend: int) {
    k <= |s| == |s0| && s[k..] == s0[k..] && Partial(s, k, p, Val(s0[..k]) + addend)
  }

  lemma AbsorbStep(s: seq<Digit>, t: seq<Digit>, s0: seq<Digit>, k: nat, p: int, col: int, addend: int)
    requires k < |s| && t == s[k := (p + col + s[k]) % BASE]
    requires Absorbed(s, s0, k, p, addend)
    ensures Absorbed(t, s0, k + 1, (p + col + s[k]) / BASE, addend + Up(col, k))
  {
    assert s[k] == s[k..][0] == s0[k..][0] == s0[k];
    PartialStep(s, t, k, p, col + s[k], Val(s0[..k]) + addend);
    ValTake(s0, k);
    UpAdd(col, s[k], k);
    assert t[k + 1..] == s[k..][1..] == s0[k..][1..] == s0[k + 1..];
  }

  lemma AbsorbDone(s: seq<Digit>, s0: seq<Digit>, k: nat, addend: int)
    requires Absorbed(s, s0, k, 0, addend)
    ensures Val(s) == Val(s0) + addend
  {
    ValSplit(s, k);
    ValSplit(s0, k);
    UpZero(k);
  }

  // The carry dies out before the last digit when the sum fits.
  lemma CarryFits(s: seq<Digit>, s0: seq<Digit>, k: nat, p: int, addend: int)
    requires Absorbed(s, s0, k, p, addend) && p >= 0
    requires Val(s0) + addend < Up(1, |s0|)
    ensures p != 0 ==> k < |s0|
  {
    if k == |s0| {
      assert s[..k] == s && s0[..k] == s0;
      ValBound(s);
      UpOrder(p, 1, k);
    }
  }

  method MulAdd(a: Digit, b: array<Digit>, c: nat, d: array<Digit>, e: nat, f: nat)
    requires b != d && c + f <= b.Length && e + f <= d.Length
    requires Val(d[e..]) + a * Val(b[c..c + f]) < Up(1, d.Length - e)
    modifies d
    ensures d[..e] == old(d[..e])
    ensures Val(d[e..]) == old(Val(d[e..]) + a * Val(b[c..c + f]))
  {
    ghost var s0, factor := d[e..], b[c..c + f];
    if a == 0 {
      return;
    }
    var p: Digit := 0;
    var k := 0;
    while k < f
      invariant 0 <= k <= f
      invariant d[..e] == old(d[..e])
      invariant Absorbed(d[e..], s0, k, p, a * Val(factor[..k]))
    {
      MulAddColumn(a, b[c + k], d[e + k], p);
      p := AbsorbColumn(a * b[c + k], d, e, k, p, s0, a * Val(factor[..k]));
      ProductColumn(factor, k, a);
      k := k + 1;
    }
    assert factor[..f] == factor;
    while p != 0
      invariant f <= k <= |s0|
      invariant d[..e] == old(d[..e])
      invariant Absorbed(d[e..], s0, k, p, a * Val(factor))
      decreases |s0| - k
    {
      CarryFits(d[e..], s0, k, p, a * Val(factor));
      p := AbsorbColumn(0, d, e, k, p, s0, a * Val(factor));
      UpZero(k);
      k := k + 1;
    }
    AbsorbDone(d[e..], s0, k, a * Val(factor));
  }

  // The store shared by both loops of ri: add col and the carry at d[e+k].
  method AbsorbColumn(col: nat, d: array<Digit>, e: nat, k: nat, carry: Digit,
                      ghost s0: seq<Digit>, ghost addend: int) returns (p: Digit)
    requires e + k < d.Length && Absorbed(d[e..], s0, k, carry, addend)
    requires col + d[e + k] + carry < 0x1_0000_0000
    modifies d
    ensures d[..e] == old(d[..e])
    ensures Absorbed(d[e..], s0, k + 1, p, addend + Up(col, k))
  {
    ghost var s := d[e..];
    var m := col + d[e + k] + carry;
    d[e + k] := m % BASE;
    p := m / BASE;
    assert d[e..] == s[k := d[e + k]];
    AbsorbStep(s, d[e..], s0, k, carry, col, addend);
  }
}
