/** Shifts of unbounded integers, as `math/big` performs them. */
module Bits {

  function Pow2(n: nat): (r: nat)
    ensures r >= 1
  {
    if n == 0 then 1 else 2 * Pow2(n - 1)
  }

  lemma {:induction false} Pow2Add(a: nat, b: nat)
    ensures Pow2(a + b) == Pow2(a) * Pow2(b)
  {
    if a == 0 {
    } else {
      Pow2Add(a - 1, b);
      assert a + b - 1 == (a - 1) + b;
      MulAssoc(2, Pow2(a - 1), Pow2(b));
    }
  }

  lemma {:induction false} Pow2Mono(a: nat, b: nat)
    requires a <= b
    ensures Pow2(a) <= Pow2(b)
    ensures a < b ==> 2 * Pow2(a) <= Pow2(b)
  {
    if a < b {
      Pow2Mono(a, b - 1);
    }
  }

  lemma {:induction false} Pow2Exceeds(n: nat)
    ensures n < Pow2(n)
  {
    if n > 0 {
      Pow2Exceeds(n - 1);
    }
  }

  lemma {:induction false} Pow2Values()
    ensures Pow2(4) == 16 && Pow2(8) == 0x100 && Pow2(16) == 0x1_0000 && Pow2(17) == 0x2_0000
  {
    assert Pow2(2) == 4;
    Pow2Add(2, 2);
    Pow2Add(4, 4);
    Pow2Add(8, 8);
  }

  function Shl(x: nat, n: nat): nat {
    MulNonneg(x, Pow2(n));
    x * Pow2(n)
  }

  lemma {:induction false} MulNonneg(a: int, b: int)
    requires a >= 0 && b >= 0
    ensures a * b >= 0
  {
  }

  function Shr(x: nat, n: nat): nat {
    DivNonneg(x, Pow2(n));
    x / Pow2(n)
  }

  lemma {:induction false} DivNonneg(x: int, d: int)
    requires x >= 0 && d > 0
    ensures x / d >= 0
  {
    if x / d < 0 {
      DivBounds(x, d);
      MulMono(x / d + 1, 0, d);
    }
  }

  /** The quotient is the only integer that satisfies the division bounds. */
  lemma {:induction false} DivUnique(x: int, d: int, q: int)
    requires d > 0 && q * d <= x < (q + 1) * d
    ensures x / d == q
  {
    var p, m := x / d, x % d;
    assert x == p * d + m;
    assert (p + 1) * d == p * d + d;
    if p < q {
      MulMono(p + 1, q, d);
    } else if p > q {
      MulMono(q + 1, p, d);
    }
  }

  lemma {:induction false} DivBounds(x: int, d: int)
    requires d > 0
    ensures (x / d) * d <= x < (x / d + 1) * d
  {
    assert x == (x / d) * d + x % d;
    assert (x / d + 1) * d == (x / d) * d + d;
  }

  lemma {:induction false} MulMono(a: int, b: int, c: int)
    requires a <= b && c >= 0
    ensures a * c <= b * c
  {
    assert (b - a) * c >= 0;
    assert b * c == a * c + (b - a) * c;
  }

  lemma {:induction false} MulAssoc(a: int, b: int, c: int)
    ensures a * (b * c) == (a * b) * c
  {
  }

  lemma {:induction false} MulSucc(a: int, b: int)
    ensures (a + 1) * b == a * b + b
  {
  }

  /** A strict comparison of products with a common positive factor compares the factors. */
  lemma {:induction false} MulCancel(a: int, b: int, c: int)
    requires c > 0 && a * c < b * c
    ensures a < b
  {
    if a >= b {
      MulMono(b, a, c);
    }
  }

  lemma {:induction false} DivMono(x: int, y: int, d: int)
    requires d > 0 && x <= y
    ensures x / d <= y / d
  {
    DivBounds(x, d);
    DivBounds(y, d);
    if x / d > y / d {
      MulMono(y / d + 1, x / d, d);
    }
  }

  lemma {:induction false} DivDiv(x: nat, a: nat, b: nat)
    requires a > 0 && b > 0
    ensures a * b > 0
    ensures (x / a) / b == x / (a * b)
  {
    var q := x / a;
    var p := q / b;
    DivBounds(x, a);
    DivBounds(q, b);
    assert p * (a * b) == (p * b) * a;
    assert (p + 1) * (a * b) == ((p + 1) * b) * a;
    MulMono(p * b, q, a);
    MulMono(q + 1, (p + 1) * b, a);
    assert a * b > 0;
    DivUnique(x, a * b, p);
  }

  lemma {:induction false} DivCancel(x: nat, a: nat, b: nat)
    requires a > 0 && b > 0
    ensures a * b > 0
    ensures (x * b) / (a * b) == x / a
  {
    var q := x / a;
    DivBounds(x, a);
    assert q * (a * b) == (q * a) * b;
    assert (q + 1) * (a * b) == ((q + 1) * a) * b;
    MulMono(q * a, x, b);
    MulMono(x + 1, (q + 1) * a, b);
    assert (x + 1) * b == x * b + b;
    assert a * b > 0;
    DivUnique(x * b, a * b, q);
  }

  /** floor(x * 2^s) for a shift of either sign. */
  function Scale(x: nat, s: int): nat {
    if s >= 0 then Shl(x, s) else Shr(x, -s)
  }

  lemma {:induction false} ScaleMonoX(x: nat, y: nat, s: int)
    requires x <= y
    ensures Scale(x, s) <= Scale(y, s)
  {
    if s >= 0 {
      MulMono(x, y, Pow2(s));
    } else {
      DivMono(x, y, Pow2(-s));
    }
  }

  lemma {:induction false} ScaleDouble(x: nat, s: int)
    ensures Scale(2 * x, s) == Scale(x, s + 1)
  {
    if s >= 0 {
      assert Pow2(s + 1) == 2 * Pow2(s);
      assert (2 * x) * Pow2(s) == x * (2 * Pow2(s));
    } else {
      assert Pow2(-s) == 2 * Pow2(-s - 1);
      var d := Pow2(-s - 1);
      assert 2 * x == x * 2;
      DivCancel(x, d, 2);
      assert d * 2 == Pow2(-s);
      if s == -1 {
        assert d == 1;
      }
    }
  }

  lemma {:induction false} ScaleMonoS(x: nat, s: int, t: int)
    requires s <= t
    ensures Scale(x, s) <= Scale(x, t)
    decreases t - s
  {
    if s < t {
      ScaleMonoX(x, 2 * x, s);
      ScaleDouble(x, s);
      ScaleMonoS(x, s + 1, t);
    }
  }

  /** Number of significant bits, as `big.Int.BitLen` counts them. */
  function BitLen(x: nat): (n: nat)
    ensures x < Pow2(n)
    ensures n > 0 ==> Pow2(n - 1) <= x
  {
    if x == 0 then 0
    else 1 + BitLen(x / 2)
  }

  lemma {:induction false} BitLenBelow(x: nat, n: nat)
    ensures BitLen(x) <= n <==> x < Pow2(n)
  {
    if BitLen(x) <= n {
      Pow2Mono(BitLen(x), n);
    } else {
      Pow2Mono(n, BitLen(x) - 1);
    }
  }

  /** Go's `/` on signed integers truncates toward zero. */
  function TruncDiv(x: int, d: int): int
    requires d > 0
  {
    if x >= 0 then x / d else -((-x) / d)
  }

  function TruncMod(x: int, d: int): int
    requires d > 0
  {
    x - d * TruncDiv(x, d)
  }

  lemma {:induction false} TruncDivMono(x: int, y: int, d: int)
    requires d > 0 && x <= y
    ensures TruncDiv(x, d) <= TruncDiv(y, d)
  {
    if x >= 0 {
      DivMono(x, y, d);
    } else if y < 0 {
      DivMono(-y, -x, d);
    } else {
      DivMono(0, -x, d);
      DivMono(0, y, d);
    }
  }
}
