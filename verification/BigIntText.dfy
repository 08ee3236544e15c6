// Decimal text of big integers: printing in chunks of four digits by repeated
// division, and parsing in chunks of four digits.
module BigIntText {
  import opened BigInts
  import opened BigIntDivision
  import opened Decimals
  import opened Digits

  // ----- printing

  // What the print loop appends after the digits of a chunk, reversed.
  function Padding(p: string): string {
    if |p| == 1 then "000" else if |p| == 2 then "00" else if |p| == 3 then "0" else ""
  }

  function Chunk(c: nat): string
    requires c < 10000
  {
    Padding(Decimal(c)) + Decimal(c)
  }

  lemma DecimalStep(n: nat)
    requires n >= 10
    ensures Decimal(n) == Decimal(n / 10) + [DigitChar(n % 10)]
  {
  }

  lemma DecimalDigit(n: nat)
    requires n < 10
    ensures Decimal(n) == [DigitChar(n)]
  {
  }

  lemma ChunkDigits(c: nat)
    requires c < 10000
    ensures Chunk(c) == [DigitChar(c / 1000), DigitChar(c / 100 % 10), DigitChar(c / 10 % 10), DigitChar(c % 10)]
  {
    hide Decimal;
    if c < 10 {
      DecimalDigit(c);
    } else {
      DecimalStep(c);
      if c < 100 {
        DecimalDigit(c / 10);
      } else {
        DecimalStep(c / 10);
        assert c / 10 / 10 == c / 100;
        if c < 1000 {
          DecimalDigit(c / 100);
        } else {
          DecimalStep(c / 100);
          assert c / 100 / 10 == c / 1000;
          DecimalDigit(c / 1000);
        }
      }
    }
  }

  // A numeral is the numeral of its 10000-quotient followed by one full chunk.
  lemma AppendChunk(q: nat, c: nat)
    requires q > 0 && c < 10000
    ensures Decimal(10000 * q + c) == Decimal(q) + Chunk(c)
  {
    hide Decimal, Chunk;
    var c1, c2, c3 := c / 10, c / 100, c / 1000;
    assert (10000 * q + c) / 10 == 1000 * q + c1 && (10000 * q + c) % 10 == c % 10;
    assert (1000 * q + c1) / 10 == 100 * q + c2 && (1000 * q + c1) % 10 == c1 % 10;
    assert (100 * q + c2) / 10 == 10 * q + c3 && (100 * q + c2) % 10 == c2 % 10;
    assert (10 * q + c3) / 10 == q && (10 * q + c3) % 10 == c3;
    DecimalStep(10000 * q + c);
    DecimalStep(1000 * q + c1);
    DecimalStep(100 * q + c2);
    DecimalStep(10 * q + c3);
    ChunkDigits(c);
  }

  lemma DecimalByChunk(n: nat)
    requires n >= 10000
    ensures Decimal(n) == Decimal(n / 10000) + Chunk(n % 10000)
  {
    AppendChunk(n / 10000, n % 10000);
    assert n == 10000 * (n / 10000) + n % 10000;
  }

  // Joining a list of strings last to first.
  function JoinReversed(s: seq<string>): string {
    if s == [] then "" else s[|s| - 1] + JoinReversed(s[..|s| - 1])
  }

  lemma JoinPush(s: seq<string>, p: string)
    ensures JoinReversed(s + [p]) == p + JoinReversed(s)
  {
    assert (s + [p])[..|s|] == s;
  }

  // i
  method Print(cache: DivisionCache, x: BigInt) returns (text: string)
    requires cache.Valid() && x.Valid()
    modifies cache
    ensures cache.Valid() && text == Text(x.Value())
    decreases x.used > 1, 1
  {
    x.SignOfValue();
    if x.used == 0 {
      return "0";
    }
    if x.used == 1 {
      OneDigit(x);
      var d: int := x.digits[0];
      return Text(if x.neg then -d else d);
    }
    var s: seq<string> := [];
    assert JoinReversed(s) == "" && Decimal(x.Abs()) + "" == Decimal(x.Abs());
    hide Decimal, JoinReversed, Chunk;
    var r := x;
    if x.neg {
      r := x.Negate();
    }
    r.SignOfValue();
    while r.used > 1
      invariant cache.Valid() && r.Valid() && r.Value() > 0
      invariant Decimal(x.Abs()) == Decimal(r.Value()) + JoinReversed(s)
      decreases r.Value()
    {
      TwoDigitsUsed(r);
      ChunkMoves(r.Value(), JoinReversed(s));
      r, s := PushChunk(cache, r, s);
    }
    OneDigit(r);
    r.SignOfValue();
    JoinPush(s, Decimal(r.digits[0]));
    s := s + [Decimal(r.digits[0])];
    if x.neg {
      JoinPush(s, "-");
      s := s + ["-"];
    }
    text := JoinReversed(s);
  }

  lemma ChunkMoves(n: nat, tail: string)
    requires n >= 10000
    ensures Decimal(n) + tail == Decimal(n / 10000) + (Chunk(n % 10000) + tail)
  {
    hide Decimal, Chunk;
    DecimalByChunk(n);
    var a, b := Decimal(n / 10000), Chunk(n % 10000);
    assert (a + b) + tail == a + (b + tail);
  }

  // One pass of the print loop: push the last four digits and divide them off.
  method PushChunk(cache: DivisionCache, r: BigInt, s: seq<string>) returns (r': BigInt, s': seq<string>)
    requires cache.Valid() && r.Valid() && r.used > 1 && r.Value() > 0
    modifies cache
    ensures cache.Valid() && r'.Valid() && r'.Value() == r.Value() / 10000
    ensures JoinReversed(s') == Chunk(r.Value() % 10000) + JoinReversed(s)
    decreases true, 0
  {
    var q := BigInt.FromSmall(10000);
    var rem := cache.Remainder(r, q);
    SmallUsed(rem);
    var p := Print(cache, rem);
    s' := Push(s, p, Padding(p));
    r' := cache.Quotient(r, q);
  }

  // The chunk and, when it is short, its padding are pushed separately.
  function Push(s: seq<string>, p: string, pad: string): (t: seq<string>)
    ensures JoinReversed(t) == pad + p + JoinReversed(s)
  {
    JoinPush(s, p);
    JoinPush(s + [p], pad);
    assert pad + (p + JoinReversed(s)) == pad + p + JoinReversed(s);
    assert "" + (p + JoinReversed(s)) == p + JoinReversed(s);
    if pad == "" then s + [p] else s + [p] + [pad]
  }

  lemma OneDigit(x: BigInt)
    requires x.Valid() && x.used == 1
    ensures x.Abs() == x.digits[0]
  {
    assert x.digits[..1] == [x.digits[0]];
    ValSingle(x.digits[0]);
  }

  // With at least two digits in use the 10000-quotient is not zero, so the
  // loop always leaves one more chunk to print.
  lemma TwoDigitsUsed(x: BigInt)
    requires x.Valid() && x.used > 1
    ensures x.Abs() >= 65536 && x.Abs() / 10000 > 0
  {
    ValTopDigit(x.digits[..x.used]);
    UpGrows(1, x.used - 1);
    assert Up(1, 1) == 65536 * Up(1, 0);
  }

  lemma SmallUsed(x: BigInt)
    requires x.Valid() && 0 <= x.Value() < 10000
    ensures x.used <= 1
  {
    if x.used > 1 {
      TwoDigitsUsed(x);
    }
  }

  // ----- parsing

  // x followed by k decimal zeros
  function Scale10(x: int, k: nat): int {
    if k == 0 then x else 10 * Scale10(x, k - 1)
  }

  lemma FullChunk(x: int)
    ensures Scale10(x, 4) == 10000 * x
  {
    assert Scale10(x, 1) == 10 * x;
    assert Scale10(x, 2) == 100 * x;
    assert Scale10(x, 3) == 1000 * x;
  }

  // vT: the value of a run of decimal digits, negated on request
  method ParseDecimal(a: string, negative: bool) returns (q: BigInt)
    requires AllDigits(a)
    ensures q.Valid()
    ensures q.Value() == if negative then -(DecimalValue(a) as int) else DecimalValue(a)
  {
    hide DecimalValue, Scale10;
    var p := |a|;
    var o := 4 - p % 4;
    if o == 4 {
      o := 0;
    }
    var s, r := 0, 0;
    q := BigInt.FromSmall(0);
    ScaleZero(o);
    ScaleStep(1, 0);
    EmptyDecimal(a);
    while r < p
      invariant 0 <= r <= p && 0 <= o < 4 && (o + p - r) % 4 == 0
      invariant q.Valid() && 0 <= s < Scale10(1, o)
      invariant DecimalValue(a[..r]) == Scale10(q.Value(), o) + s
    {
      ReadDigit(a, r);
      ScaleStep(q.Value(), o);
      ScaleStep(1, o);
      s := s * 10 + DigitValue(a[r]);
      r := r + 1;
      o := o + 1;
      if o == 4 {
        FullChunk(1);
        FullChunk(q.Value());
        q := AddChunk(q, s);
        s, o := 0, 0;
        ScaleStep(q.Value(), o);
      }
    }
    assert a[..p] == a;
    ScaleStep(q.Value(), 0);
    ScaleStep(1, 0);
    if negative {
      q := q.Negate();
    }
  }

  lemma ScaleStep(x: int, k: nat)
    ensures Scale10(x, 0) == x && Scale10(x, k + 1) == 10 * Scale10(x, k)
  {
  }

  lemma EmptyDecimal(a: string)
    requires AllDigits(a)
    ensures DecimalValue(a[..0]) == 0
  {
  }

  lemma ReadDigit(a: string, r: nat)
    requires AllDigits(a) && r < |a|
    ensures DecimalValue(a[..r + 1]) == 10 * DecimalValue(a[..r]) + DigitValue(a[r])
  {
    assert a[..r + 1][..r] == a[..r];
  }

  method AddChunk(q: BigInt, s: nat) returns (r: BigInt)
    requires q.Valid() && s < 10000
    ensures r.Valid() && r.Value() == 10000 * q.Value() + s
  {
    var base := BigInt.FromSmall(10000);
    var scaled := q.Times(base);
    var chunk := BigInt.FromSmall(s);
    r := scaled.Plus(chunk);
  }

  lemma {:induction false} ScaleZero(k: nat)
    ensures Scale10(0, k) == 0 && Scale10(1, k) > 0
  {
    if k > 0 { ScaleZero(k - 1); }
  }

  // ----- the round trip

  // Printing a number and parsing the text back, sign and digits, returns it.
  method Reread(cache: DivisionCache, x: BigInt) returns (y: BigInt)
    requires cache.Valid() && x.Valid()
    modifies cache
    ensures cache.Valid() && y.Valid() && y.Value() == x.Value()
  {
    var text := Print(cache, x);
    TextRoundTrip(x.Value());
    var negative := text[0] == '-';
    y := ParseDecimal(if negative then text[1..] else text, negative);
  }

  // The sign and digits of a numeral determine the number, and are what the
  // parser's pattern splits it into.
  lemma TextRoundTrip(v: int)
    ensures var t := Text(v);
            && |t| > 0 && (t[0] == '-' <==> v < 0)
            && var digits := if v < 0 then t[1..] else t;
               digits != [] && AllDigits(digits) && DecimalValue(digits) == AbsOf(v)
  {
    DecimalRoundTrip(AbsOf(v));
    if v < 0 {
      assert Text(v)[1..] == Decimal(-v);
    }
  }
}
