/** Compact difficulty encoding and proof-of-work weights (core/pow.go). */
module Compact {
  import opened Types
  import opened Bits

  function Pow256(n: nat): (r: nat)
    ensures r >= 1
  {
    if n == 0 then 1 else 256 * Pow256(n - 1)
  }

  /** Length of the minimal big-endian encoding, as `len(t.Bytes())`. */
  function ByteLen(t: nat): (n: nat)
    ensures t < Pow256(n)
    ensures n > 0 ==> Pow256(n - 1) <= t
  {
    if t == 0 then 0 else 1 + ByteLen(t / 256)
  }

  function SizeOf(bits: U32): nat {
    bits / 0x100_0000
  }

  function MantissaOf(bits: U32): nat {
    bits % 0x80_0000
  }

  function Expand(size: nat, mant: nat): nat {
    if size <= 3 then
      DivNonneg(mant, Pow256(3 - size));
      mant / Pow256(3 - size)
    else
      MulNonneg(mant, Pow256(size - 3));
      mant * Pow256(size - 3)
  }

  function CompactToTarget(bits: U32): nat {
    Expand(SizeOf(bits), MantissaOf(bits))
  }

  /** Mantissa before the sign bit is dodged. */
  function RawMantissa(t: nat): nat {
    var size := ByteLen(t);
    if size <= 3 then
      MulNonneg(t, Pow256(3 - size));
      t * Pow256(3 - size)
    else
      DivNonneg(t, Pow256(size - 3));
      t / Pow256(size - 3)
  }

  function TargetToCompact(t: int): U32 {
    if t <= 0 then 0
    else
      var size := ByteLen(t);
      var mant := RawMantissa(t);
      if mant / 0x80_0000 % 2 == 1
      then Pack(size + 1, mant / 256)
      else Pack(size, mant)
  }

  /** `size<<24 | (mant & 0x007fffff)` on 32-bit words. */
  function Pack(size: nat, mant: nat): U32 {
    (size * 0x100_0000 + mant % 0x80_0000) % 0x1_0000_0000
  }

  /** Expected number of hashes to meet a target. */
  function WorkFromTarget(target: nat): nat {
    DivNonneg(Pow2(256), target + 1);
    Pow2(256) / (target + 1)
  }

  // ---- powers of 256 ----

  lemma {:induction false} Pow256Add(a: nat, b: nat)
    ensures Pow256(a + b) == Pow256(a) * Pow256(b)
  {
    if a > 0 {
      Pow256Add(a - 1, b);
      assert a + b - 1 == (a - 1) + b;
      MulAssoc(256, Pow256(a - 1), Pow256(b));
    }
  }

  lemma {:induction false} Pow256Mono(a: nat, b: nat)
    requires a <= b
    ensures Pow256(a) <= Pow256(b)
    ensures a < b ==> 256 * Pow256(a) <= Pow256(b)
  {
    if a < b {
      Pow256Mono(a, b - 1);
    }
  }

  lemma {:induction false} Pow256IsPow2(n: nat)
    ensures Pow256(n) == Pow2(8 * n)
  {
    if n > 0 {
      Pow256IsPow2(n - 1);
      Pow2Add(8, 8 * (n - 1));
      assert Pow2(8) == 256;
    }
  }

  // ---- the normal form of an encoded target ----

  /** `(s, m)` is the three-byte floating form of `t`: m * 256^(s-3) is t rounded down, and the top
      mantissa bit is clear while the mantissa keeps at least sixteen significant bits. */
  ghost predicate Normal(t: nat, s: nat, m: nat) {
    && 0x8000 <= m < 0x80_0000
    && m * Pow256(s) <= t * Pow256(3) < (m + 1) * Pow256(s)
  }

  lemma {:induction false} NormalUnique(t: nat, s: nat, m: nat, s': nat, m': nat)
    requires Normal(t, s, m) && Normal(t, s', m')
    ensures s == s' && m == m'
  {
    NormalMono(t, s, m, t, s', m');
    NormalMono(t, s', m', t, s, m);
  }

  /** A larger target never has a smaller exponent, nor a smaller mantissa under the same exponent. */
  lemma {:induction false} NormalMono(t: nat, s: nat, m: nat, t': nat, s': nat, m': nat)
    requires Normal(t, s, m) && Normal(t', s', m') && t <= t'
    ensures s < s' || (s == s' && m <= m')
  {
    MulMono(t, t', Pow256(3));
    MulMono(m' + 1, 0x80_0000, Pow256(s'));
    MulMono(0x8000, m, Pow256(s));
    if s > s' {
      Pow256Mono(s', s);
    } else if s == s' {
      MulCancel(m, m' + 1, Pow256(s));
    }
  }

  lemma {:induction false} SmallMantissa(t: nat, a: nat, p: nat, c: nat)
    requires a >= 1 && p >= 1 && a * p == 0x100_0000 && c * a == 0x1_0000 && c <= t < p
    ensures 0x1_0000 <= t * a < 0x100_0000
    ensures (t * a) * p == t * 0x100_0000
  {
    MulMono(c, t, a);
    MulMono(t + 1, p, a);
    MulSucc(t, a);
    MulAssoc(t, a, p);
  }

  lemma {:induction false} LargeMantissa(t: nat, d: nat)
    requires d >= 1 && d * 0x1_0000 <= t < d * 0x100_0000
    ensures 0x1_0000 <= t / d < 0x100_0000
    ensures (t / d) * (d * 0x100_0000) <= t * 0x100_0000 < (t / d + 1) * (d * 0x100_0000)
  {
    DivBounds(t, d);
    var m := t / d;
    MulCancel(0x1_0000, m + 1, d);
    MulCancel(m, 0x100_0000, d);
    MulAssoc(m, d, 0x100_0000);
    MulAssoc(m + 1, d, 0x100_0000);
  }

  lemma {:induction false} RawMantissaBounds(t: nat)
    requires t > 0
    ensures 0x1_0000 <= RawMantissa(t) < 0x100_0000
    ensures RawMantissa(t) * Pow256(ByteLen(t)) <= t * Pow256(3) < (RawMantissa(t) + 1) * Pow256(ByteLen(t))
  {
    var s, m := ByteLen(t), RawMantissa(t);
    Pow256Values();
    if s <= 3 {
      Pow256Add(3 - s, s);
      Pow256Add(s - 1, 3 - s);
      SmallMantissa(t, Pow256(3 - s), Pow256(s), Pow256(s - 1));
      MulSucc(m, Pow256(s));
    } else {
      Pow256Add(s - 3, 3);
      Pow256Add(s - 3, 2);
      LargeMantissa(t, Pow256(s - 3));
    }
  }

  lemma {:induction false} Pow256Values()
    ensures Pow256(0) == 1 && Pow256(1) == 0x100 && Pow256(2) == 0x1_0000 && Pow256(3) == 0x100_0000
  {
    assert Pow256(1) == 256 * Pow256(0);
    assert Pow256(2) == 256 * Pow256(1);
    assert Pow256(3) == 256 * Pow256(2);
  }

  /** The exponent and mantissa `TargetToCompact` packs. */
  ghost function EncSize(t: nat): nat {
    if RawMantissa(t) >= 0x80_0000 then ByteLen(t) + 1 else ByteLen(t)
  }

  ghost function EncMant(t: nat): nat {
    if RawMantissa(t) >= 0x80_0000 then RawMantissa(t) / 256 else RawMantissa(t)
  }

  lemma {:induction false} DropByte(m: nat, p: nat)
    requires p >= 1
    ensures (m / 256) * (256 * p) <= m * p
    ensures (m + 1) * p <= (m / 256 + 1) * (256 * p)
  {
    DivBounds(m, 256);
    var q := m / 256;
    MulAssoc(q, 256, p);
    MulAssoc(q + 1, 256, p);
    MulMono(q * 256, m, p);
    MulMono(m + 1, (q + 1) * 256, p);
  }

  lemma {:induction false} EncodeNormal(t: nat)
    requires 0 < t
    ensures Normal(t, EncSize(t), EncMant(t))
  {
    RawMantissaBounds(t);
    DropByte(RawMantissa(t), Pow256(ByteLen(t)));
  }

  lemma {:induction false} ByteLenBound(t: nat, n: nat)
    requires t < Pow256(n)
    ensures ByteLen(t) <= n
  {
    if t > 0 {
      ByteLenBound(t / 256, n - 1);
    }
  }

  lemma {:induction false} PackParts(s: nat, m: nat)
    requires s <= 255 && m < 0x80_0000
    ensures SizeOf(Pack(s, m)) == s && MantissaOf(Pack(s, m)) == m
    ensures Pack(s, m) == s * 0x100_0000 + m
  {
    assert m % 0x80_0000 == m;
  }

  lemma {:induction false} EncodedAsPacked(t: nat)
    requires 0 < t
    ensures TargetToCompact(t) == Pack(EncSize(t), EncMant(t))
  {
    hide Pack, RawMantissa;
    RawMantissaBounds(t);
    TopBit(RawMantissa(t));
  }

  lemma {:induction false} TopBit(m: nat)
    requires m < 0x100_0000
    ensures m / 0x80_0000 % 2 == 1 <==> m >= 0x80_0000
  {
  }

  lemma {:induction false} EncSizeBound(t: nat)
    requires t < Pow256(32)
    ensures EncSize(t) <= 33
  {
    hide RawMantissa;
    ByteLenBound(t, 32);
  }

  lemma {:induction false} PackedParts(t: nat)
    requires 0 < t < Pow256(32)
    ensures EncSize(t) <= 33 && EncMant(t) < 0x80_0000
    ensures TargetToCompact(t) == Pack(EncSize(t), EncMant(t)) == EncSize(t) * 0x100_0000 + EncMant(t)
    ensures SizeOf(TargetToCompact(t)) == EncSize(t)
    ensures MantissaOf(TargetToCompact(t)) == EncMant(t)
  {
    hide *;
    EncodeNormal(t);
    EncSizeBound(t);
    EncodedAsPacked(t);
    NormalRange(t, EncSize(t), EncMant(t));
    PackParts(EncSize(t), EncMant(t));
  }

  lemma {:induction false} NormalRange(t: nat, s: nat, m: nat)
    requires Normal(t, s, m)
    ensures 0x8000 <= m < 0x80_0000
  {
  }

  lemma {:induction false} ExpandSmall(s: nat, m: nat)
    requires s <= 3
    ensures Expand(s, m) == m * Pow256(s) / Pow256(3)
  {
    Pow256Add(3 - s, s);
    DivCancel(m, Pow256(3 - s), Pow256(s));
  }

  lemma {:induction false} ExpandLarge(s: nat, m: nat)
    requires s >= 3
    ensures Expand(s, m) == m * Pow256(s - 3)
    ensures Expand(s, m) * Pow256(3) == m * Pow256(s)
    ensures Expand(s, m) == m * Pow256(s) / Pow256(3)
  {
    Pow256Values();
    Pow256Add(s - 3, 3);
    var d := Pow256(s - 3);
    MulAssoc(m, d, Pow256(3));
    DivCancel(m * d, 1, Pow256(3));
  }

  /** What decoding an encoded target gives, in the scaled form. */
  lemma {:induction false} RoundedValue(t: nat)
    requires 0 < t < Pow256(32)
    ensures CompactToTarget(TargetToCompact(t)) == Expand(EncSize(t), EncMant(t))
    ensures CompactToTarget(TargetToCompact(t)) == EncMant(t) * Pow256(EncSize(t)) / Pow256(3)
  {
    PackedParts(t);
    if EncSize(t) <= 3 {
      ExpandSmall(EncSize(t), EncMant(t));
    } else {
      ExpandLarge(EncSize(t), EncMant(t));
    }
  }

  lemma {:induction false} ExactFactor(t: nat, a: nat, p: nat, m: nat)
    requires a >= 1 && p >= 1 && m * p <= t * (a * p) < (m + 1) * p
    ensures m == t * a
  {
    MulAssoc(t, a, p);
    MulCancel(t * a, m + 1, p);
    if m > t * a {
      MulMono(t * a + 1, m, p);
      MulSucc(t * a, p);
    }
  }

  /** Small exponents lose nothing. */
  lemma {:induction false} ExactWhenSmall(t: nat)
    requires 0 < t < Pow256(32) && EncSize(t) < 3
    ensures CompactToTarget(TargetToCompact(t)) == t
  {
    hide EncSize, EncMant, TargetToCompact, RawMantissa, SizeOf, MantissaOf, Pow256;
    EncodeNormal(t);
    PackedParts(t);
    var s, m := EncSize(t), EncMant(t);
    var a := Pow256(3 - s);
    Pow256Add(3 - s, s);
    ExactFactor(t, a, Pow256(s), m);
    DivCancel(t, 1, a);
  }

  lemma {:induction false} RoundingError(t: nat, m: nat, d: nat, q: nat)
    requires d >= 1 && q >= 1 && m >= 32768
    requires (m * d) * q <= t * q < ((m + 1) * d) * q
    ensures m * d <= t && (t - m * d) * 32768 < t
  {
    MulCancel(t, (m + 1) * d, q);
    MulSucc(t, q);
    MulCancel(m * d, t + 1, q);
    MulSucc(m, d);
    MulMono(32768, m, d);
  }

  /** Encoding rounds down, by less than one part in 32768. */
  lemma {:induction false} RoundsDown(t: nat)
    requires 0 < t < Pow256(32)
    ensures CompactToTarget(TargetToCompact(t)) <= t
    ensures (t - CompactToTarget(TargetToCompact(t))) * 32768 < t
  {
    hide EncSize, EncMant, CompactToTarget, TargetToCompact, Expand, RawMantissa, Pow256;
    EncodeNormal(t);
    var s, m := EncSize(t), EncMant(t);
    if s < 3 {
      ExactWhenSmall(t);
    } else {
      RoundedValue(t);
      ExpandLarge(s, m);
      ExpandLarge(s, m + 1);
      RoundingError(t, m, Pow256(s - 3), Pow256(3));
    }
  }

  /** Larger targets get larger codes. */
  lemma {:induction false} EncodeMonotone(t: nat, t': nat)
    requires 0 < t <= t' < Pow256(32)
    ensures TargetToCompact(t) <= TargetToCompact(t')
  {
    EncodeNormal(t);
    EncodeNormal(t');
    NormalMono(t, EncSize(t), EncMant(t), t', EncSize(t'), EncMant(t'));
    PackedParts(t);
    PackedParts(t');
  }

  /** Rounding preserves order. */
  lemma {:induction false} RoundMonotone(t: nat, t': nat)
    requires 0 < t <= t' < Pow256(32)
    ensures CompactToTarget(TargetToCompact(t)) <= CompactToTarget(TargetToCompact(t'))
  {
    EncodeNormal(t);
    EncodeNormal(t');
    var s, m, s', m' := EncSize(t), EncMant(t), EncSize(t'), EncMant(t');
    NormalMono(t, s, m, t', s', m');
    RoundedValue(t);
    RoundedValue(t');
    if s < s' {
      Pow256Mono(s, s');
      MulMono(m, 0x80_0000, Pow256(s));
      MulMono(0x8000, m', Pow256(s'));
    } else {
      MulMono(m, m', Pow256(s));
    }
    DivMono(m * Pow256(s), m' * Pow256(s'), Pow256(3));
  }

  /** A target that has been through the encoding once is encoded exactly. */
  lemma {:induction false} RoundIdempotent(t: nat)
    requires 0 < t < Pow256(32)
    ensures TargetToCompact(CompactToTarget(TargetToCompact(t))) == TargetToCompact(t)
  {
    EncodeNormal(t);
    if EncSize(t) < 3 {
      ExactWhenSmall(t);
    } else {
      RoundedValue(t);
      RoundsDown(t);
      PackedParts(t);
      ExpandLarge(EncSize(t), EncMant(t));
      EncodeExact(CompactToTarget(TargetToCompact(t)), EncSize(t), EncMant(t));
    }
  }

  lemma {:induction false} EncodeExact(r: nat, s: nat, m: nat)
    requires 0x8000 <= m < 0x80_0000 && s <= 33
    requires r * Pow256(3) == m * Pow256(s) && r < Pow256(32)
    ensures TargetToCompact(r) == Pack(s, m)
  {
    hide EncSize, EncMant, TargetToCompact, RawMantissa, Pack, SizeOf, MantissaOf, Pow256;
    MulSucc(m, Pow256(s));
    MulMono(1, m, Pow256(s));
    assert Normal(r, s, m);
    EncodeNormal(r);
    NormalUnique(r, EncSize(r), EncMant(r), s, m);
    PackedParts(r);
  }

  /** Any target a hash can be compared with contributes at least one unit of work. */
  lemma {:induction false} WorkPositive(target: nat)
    requires target < Pow2(256)
    ensures WorkFromTarget(target) >= 1
  {
    DivMono(target + 1, Pow2(256), target + 1);
    DivUnique(target + 1, target + 1, 1);
  }

  lemma {:induction false} QuotientsCompare(x: nat, d: nat, d': nat, q: nat, r: nat)
    requires 0 < d <= d' && q * d' <= x < (r + 1) * d
    ensures q <= r
  {
    MulMono(d, d', q);
    MulCancel(q, r + 1, d);
  }

  /** An easier target is worth no more work. */
  lemma {:induction false} WorkAntitone(t: nat, t': nat)
    requires t <= t'
    ensures WorkFromTarget(t') <= WorkFromTarget(t)
  {
    DivBounds(Pow2(256), t + 1);
    DivBounds(Pow2(256), t' + 1);
    QuotientsCompare(Pow2(256), t + 1, t' + 1, WorkFromTarget(t'), WorkFromTarget(t));
  }
}
