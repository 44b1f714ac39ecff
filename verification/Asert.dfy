/** The aserti3 fixed-point difficulty rule (core/pow.go, `calculateASERTTarget`). */
module Asert {
  import opened Types
  import opened Bits

  const RADIX := 65536

  /** Schedule deviation in half-lives, as 16-bit fixed point; the division truncates toward zero. */
  function Exponent(spacing: int, timeDiff: int, heightDiff: int, halfLife: int): int
    requires halfLife > 0
  {
    TruncDiv((timeDiff - (heightDiff + 1) * spacing) * RADIX, halfLife)
  }

  /** `a * b`, by repeated addition: the solver then does not expand the cubic on its own. */
  function Product(a: nat, b: nat): nat {
    if b == 0 then 0 else Product(a, b - 1) + a
  }

  lemma {:induction false} ProductIs(a: nat, b: nat)
    ensures Product(a, b) == a * b
  {
    if b > 0 {
      ProductIs(a, b - 1);
      MulSucc(b - 1, a);
    }
  }

  function Cubic(frac: nat): nat {
    var square := Product(frac, frac);
    195766423245049 * frac + 971821376 * square + 5127 * Product(square, frac) + 0x8000_0000_0000
  }

  /** 65536 * 2^(frac/65536), approximated by a cubic. */
  function Factor(frac: nat): nat {
    Cubic(frac) / 0x1_0000_0000_0000 + RADIX
  }

  /** floor(ref * factor * 2^(shift - 16)), with the exponent split as floor and fraction. */
  function Unclamped(ref: nat, exponent: int): nat {
    Scale(Product(ref, Factor(exponent % RADIX)), exponent / RADIX - 16)
  }

  function Clamp(x: nat, max: nat): nat {
    if x < 1 then 1 else if x > max then max else x
  }

  /** The closed form of the rule. */
  function AsertTarget(ref: nat, spacing: int, timeDiff: int, heightDiff: int, halfLife: int, max: nat): nat
    requires halfLife > 0
  {
    Clamp(Unclamped(ref, Exponent(spacing, timeDiff, heightDiff, halfLife)), max)
  }

  /** The closed form extended to the degenerate arguments the code guards against. */
  function Calculated(ref: int, spacing: int, timeDiff: int, heightDiff: int, halfLife: int, max: int): nat {
    if ref <= 0 || max <= 0 then 1
    else if halfLife <= 0 || spacing <= 0 || heightDiff < 0 then (if ref > max then max else ref)
    else AsertTarget(ref, spacing, timeDiff, heightDiff, halfLife, max)
  }

  // ---- the cubic ----

  lemma {:induction false} CubeMono(a: nat, b: nat)
    requires a <= b
    ensures a * a <= b * b && a * a * a <= b * b * b
  {
    MulMono(a, b, a);
    MulMono(a, b, b);
    MulMono(a * a, b * b, a);
    MulMono(a, b, b * b);
  }

  lemma {:induction false} CubicIs(frac: nat)
    ensures Cubic(frac) == 195766423245049 * frac + 971821376 * (frac * frac) + 5127 * (frac * frac * frac) + 0x8000_0000_0000
  {
    hide Product;
    ProductIs(frac, frac);
    ProductIs(frac * frac, frac);
  }

  lemma {:induction false} FactorMono(a: nat, b: nat)
    requires a <= b
    ensures Factor(a) <= Factor(b)
  {
    hide Cubic;
    CubicIs(a);
    CubicIs(b);
    CubeMono(a, b);
    DivMono(Cubic(a), Cubic(b), 0x1_0000_0000_0000);
  }

  /** The factor always lies in [1, 2) of the fixed-point scale. */
  lemma {:induction false} FactorRange(frac: nat)
    requires frac < RADIX
    ensures 65536 <= Factor(frac) <= 131071
  {
    FactorMono(0, frac);
    FactorMono(frac, 65535);
    FactorEnds();
  }

  lemma {:induction false} FactorEnds()
    ensures Factor(0) == 65536 && Factor(65535) == 131071
  {
    hide Cubic;
    CubicIs(0);
    CubicIs(65535);
  }

  // ---- monotonicity of the closed form ----

  lemma {:induction false} UnclampedMono(ref: nat, e: int, e': int)
    requires e <= e'
    ensures Unclamped(ref, e) <= Unclamped(ref, e')
  {
    hide Factor, Scale, Product;
    var s, f := e / RADIX, e % RADIX;
    var s', f' := e' / RADIX, e' % RADIX;
    DivMono(e, e', RADIX);
    FactorRange(f);
    FactorRange(f');
    ProductIs(ref, Factor(f));
    ProductIs(ref, Factor(f'));
    if s == s' {
      FactorMono(f, f');
      MulMono(Factor(f), Factor(f'), ref);
      ScaleMonoX(ref * Factor(f), ref * Factor(f'), s - 16);
    } else {
      // crossing into a later half-life: at most a doubling, which is exactly one more shift
      MulMono(Factor(f), 2 * RADIX, ref);
      ScaleMonoX(ref * Factor(f), 2 * (ref * RADIX), s - 16);
      ScaleDouble(ref * RADIX, s - 16);
      ScaleMonoS(ref * RADIX, s + 1 - 16, s' - 16);
      MulMono(RADIX, Factor(f'), ref);
      ScaleMonoX(ref * RADIX, ref * Factor(f'), s' - 16);
    }
  }

  /** A later parent block never lowers the next target, including across a half-life boundary. */
  lemma {:induction false} TargetMonotoneInTime(ref: nat, spacing: int, t: int, t': int, heightDiff: int, halfLife: int, max: nat)
    requires halfLife > 0 && t <= t' && max >= 1
    ensures AsertTarget(ref, spacing, t, heightDiff, halfLife, max)
         <= AsertTarget(ref, spacing, t', heightDiff, halfLife, max)
  {
    var d := (heightDiff + 1) * spacing;
    TruncDivMono((t - d) * RADIX, (t' - d) * RADIX, halfLife);
    UnclampedMono(ref, Exponent(spacing, t, heightDiff, halfLife), Exponent(spacing, t', heightDiff, halfLife));
  }

  lemma {:induction false} ZeroExponent(ref: nat)
    ensures Unclamped(ref, 0) == ref
  {
    hide Factor, Product;
    FactorEnds();
    ProductIs(ref, 65536);
    Pow2Values();
    DivCancel(ref, 1, 65536);
  }

  /** Exactly on schedule the reference target is returned unchanged. */
  lemma {:induction false} OnScheduleKeepsTarget(ref: nat, spacing: int, heightDiff: int, halfLife: int, max: nat)
    requires halfLife > 0 && 1 <= ref <= max
    ensures AsertTarget(ref, spacing, (heightDiff + 1) * spacing, heightDiff, halfLife, max) == ref
  {
    ZeroExponent(ref);
    assert (heightDiff + 1) * spacing - (heightDiff + 1) * spacing == 0;
    assert TruncDiv(0, halfLife) == 0;
  }

  // ---- the early exits ----

  /** An operand size the early exits are sound for: numbers of eight tebibytes, where targets have 256 bits. */
  const MAX_BITS := 0x4000_0000_0000

  lemma {:induction false} HugeExponent(ref: nat, e: int, max: nat)
    requires ref >= 1 && BitLen(max) <= MAX_BITS && e >= 0x8000_0000_0000_0000
    ensures Unclamped(ref, e) > max
  {
    hide Factor, Pow2, BitLen, Scale, Product;
    var s := e / RADIX;
    ProductIs(ref, Factor(e % RADIX));
    LargeShift(ref, e % RADIX, s - 16, max);
  }

  lemma {:induction false} LargeShift(ref: nat, frac: nat, shift: int, max: nat)
    requires ref >= 1 && frac < RADIX && shift >= BitLen(max)
    ensures Scale(ref * Factor(frac), shift) > max
  {
    hide Factor, Pow2, BitLen;
    FactorRange(frac);
    MulMono(1, ref, Factor(frac));
    MulMono(1, ref * Factor(frac), Pow2(shift));
    Pow2Mono(BitLen(max), shift);
  }

  lemma {:induction false} TinyExponent(ref: nat, e: int)
    requires BitLen(ref) <= MAX_BITS && e < -0x8000_0000_0000_0000
    ensures Unclamped(ref, e) == 0
  {
    hide Factor, Pow2, BitLen, Shr, Product;
    var s := e / RADIX;
    FactorRange(e % RADIX);
    ProductIs(ref, Factor(e % RADIX));
    var x := ref * Factor(e % RADIX);
    Pow2Values();
    ProductBits(ref, Factor(e % RADIX), MAX_BITS, 17);
    RightShiftOut(x, -(s - 16));
  }

  lemma {:induction false} ProductBits(x: nat, y: nat, a: nat, b: nat)
    requires BitLen(x) <= a && y < Pow2(b)
    ensures BitLen(x * y) <= a + b
  {
    hide *;
    BitLenBelow(x, a);
    MulMono(x, Pow2(a), y);
    MulMono(y + 1, Pow2(b), Pow2(a));
    MulSucc(y, Pow2(a));
    Pow2Add(a, b);
    BitLenBelow(x * y, a + b);
  }

  lemma {:induction false} RightShiftOut(x: nat, n: nat)
    requires n >= BitLen(x)
    ensures Shr(x, n) == 0
  {
    BitLenBelow(x, n);
    DivUnique(x, Pow2(n), 0);
  }

  lemma {:induction false} FloorFromTrunc(e: int)
    ensures e / RADIX == if TruncMod(e, RADIX) < 0 then TruncDiv(e, RADIX) - 1 else TruncDiv(e, RADIX)
    ensures e % RADIX == if TruncMod(e, RADIX) < 0 then TruncMod(e, RADIX) + RADIX else TruncMod(e, RADIX)
  {
  }

  /** Step-by-step computation with every early return; absent big integers are passed as zero. */
  method CalculateAsertTarget(refTarget: int, targetSpacing: I64, timeDiff: I64, heightDiff: I64, halfLife: I64,
                              maxTarget: int) returns (target: int)
    requires refTarget > 0 ==> BitLen(refTarget) <= MAX_BITS
    requires maxTarget > 0 ==> BitLen(maxTarget) <= MAX_BITS
    ensures target == Calculated(refTarget, targetSpacing, timeDiff, heightDiff, halfLife, maxTarget)
  {
    if refTarget <= 0 {
      return 1;
    }
    if maxTarget <= 0 {
      return 1;
    }
    if halfLife <= 0 || targetSpacing <= 0 || heightDiff < 0 {
      if refTarget > maxTarget {
        return maxTarget;
      }
      return refTarget;
    }

    var exponent := ScheduleExponent(targetSpacing, timeDiff, heightDiff, halfLife);
    target := TargetAtExponent(refTarget, exponent, maxTarget);
  }

  /** The 64-bit range check on the exponent, then the fixed-point evaluation. */
  method TargetAtExponent(refTarget: nat, exponent: int, maxTarget: nat) returns (target: nat)
    requires refTarget > 0 && BitLen(refTarget) <= MAX_BITS
    requires maxTarget > 0 && BitLen(maxTarget) <= MAX_BITS
    ensures target == Clamp(Unclamped(refTarget, exponent), maxTarget)
  {
    hide Factor, Product, Scale, BitLen;
    if !(-0x8000_0000_0000_0000 <= exponent < 0x8000_0000_0000_0000) {
      if exponent < 0 {
        TinyExponent(refTarget, exponent);
        return 1;
      }
      HugeExponent(refTarget, exponent, maxTarget);
      return maxTarget;
    }
    var shifts, frac := SplitExponent(exponent);
    ProductIs(refTarget, Factor(frac));
    target := ScaleAndClamp(refTarget, shifts, frac, maxTarget);
  }

  method ScheduleExponent(targetSpacing: int, timeDiff: int, heightDiff: int, halfLife: int) returns (exponent: int)
    requires halfLife > 0
    ensures exponent == Exponent(targetSpacing, timeDiff, heightDiff, halfLife)
    ensures var scaled := (timeDiff - (heightDiff + 1) * targetSpacing) * RADIX;
            && (scaled >= 0 ==> 0 <= exponent * halfLife <= scaled < exponent * halfLife + halfLife)
            && (scaled <= 0 ==> exponent * halfLife - halfLife < scaled <= exponent * halfLife <= 0)
  {
    var scheduled := heightDiff + 1;
    scheduled := scheduled * targetSpacing;
    exponent := timeDiff - scheduled;
    exponent := exponent * RADIX;
    TruncBounds(exponent, halfLife);
    exponent := TruncDiv(exponent, halfLife);
  }

  /** Truncating division stays within one divisor of its dividend, on the side of zero. */
  lemma {:induction false} TruncBounds(x: int, d: int)
    requires d > 0
    ensures x >= 0 ==> 0 <= TruncDiv(x, d) * d <= x < TruncDiv(x, d) * d + d
    ensures x <= 0 ==> TruncDiv(x, d) * d - d < x <= TruncDiv(x, d) * d <= 0
  {
    if x >= 0 {
      DivBounds(x, d);
    } else {
      DivBounds(-x, d);
      assert TruncDiv(x, d) == -((-x) / d);
    }
  }

  /** Truncated division repaired into a floored shift and a non-negative fraction. */
  method SplitExponent(exponent: int) returns (shifts: int, frac: nat)
    ensures exponent == shifts * RADIX + frac && frac < RADIX
    ensures shifts == exponent / RADIX && frac == exponent % RADIX
  {
    FloorFromTrunc(exponent);
    shifts := TruncDiv(exponent, RADIX);
    var rest := TruncMod(exponent, RADIX);
    if rest < 0 {
      shifts := shifts - 1;
      rest := rest + RADIX;
    }
    frac := rest;
  }

  lemma {:induction false} ScaleZero(x: nat)
    ensures Shr(x, 0) == x && Scale(x, 0) == x
  {
    assert Pow2(0) == 1;
  }

  /** The polynomial, accumulated term by term. */
  method CubicFactor(frac: nat) returns (factor: nat)
    ensures factor == Factor(frac)
  {
    hide Cubic;
    MulNonneg(frac, frac);
    MulNonneg(frac * frac, frac);
    factor := 195766423245049 * frac;
    var fracSquared := frac * frac;
    factor := factor + 971821376 * fracSquared;
    var fracCubed := fracSquared * frac;
    factor := factor + 5127 * fracCubed;
    factor := factor + 0x8000_0000_0000;
    factor := factor / 0x1_0000_0000_0000;
    factor := factor + RADIX;
    CubicIs(frac);
  }

  /** The second half: the cubic factor, the big shift in either direction and the clamp. */
  method ScaleAndClamp(refTarget: nat, shift: int, frac: nat, maxTarget: nat) returns (target: nat)
    requires refTarget > 0 && maxTarget > 0 && frac < RADIX
    ensures target == Clamp(Scale(refTarget * Factor(frac), shift - 16), maxTarget)
  {
    hide Factor, BitLen, Pow2;
    var shifts := shift;
    var factor := CubicFactor(frac);
    MulNonneg(refTarget, factor);
    var nextTarget := refTarget * factor;
    shifts := shifts - 16;
    if shifts <= 0 {
      var right := -shifts;
      if right >= BitLen(nextTarget) {
        RightShiftOut(nextTarget, right);
        nextTarget := 0;
      } else {
        nextTarget := Shr(nextTarget, right);
      }
    } else {
      if shifts > BitLen(maxTarget) + 17 {
        LargeShift(refTarget, frac, shifts, maxTarget);
        return maxTarget;
      }
      nextTarget := Shl(nextTarget, shifts);
    }
    assert nextTarget == Scale(refTarget * Factor(frac), shift - 16) by { ScaleZero(refTarget * factor); }
    if nextTarget == 0 {
      return 1;
    }
    if nextTarget > maxTarget {
      return maxTarget;
    }
    return nextTarget;
  }
}
