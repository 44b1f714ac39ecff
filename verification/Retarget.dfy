/** What the required difficulty says about the times of a branch (core/pow.go, `NextBits`). */
module Retarget {
  import opened Types
  import opened Bits
  import opened Compact
  import opened Asert
  import opened Params
  import opened Difficulty

  // ---- the fixed-point scale ----

  lemma {:induction false} ScaleBy(x: nat, n: nat, s: int)
    ensures Scale(Pow2(n) * x, s) == Scale(x, s + n)
  {
    hide Scale;
    if n > 0 {
      ScaleBy(x, n - 1, s + 1);
      MulAssoc(2, Pow2(n - 1), x);
      MulNonneg(Pow2(n - 1), x);
      ScaleDouble(Pow2(n - 1) * x, s);
    }
  }

  /** A whole number of half-lives is a whole number of doublings or halvings. */
  lemma {:induction false} WholeHalfLives(ref: nat, k: int)
    ensures Unclamped(ref, k * 65536) == Scale(ref, k)
  {
    hide Factor, Product, Scale, Pow2;
    FactorEnds();
    ProductIs(ref, 65536);
    DivUnique(k * 65536, 65536, k);
    assert (k * 65536) % 65536 == 0;
    Pow2Values();
    ScaleBy(ref, 16, k - 16);
  }

  /** Between them the factor follows 2^(1/4), 2^(1/2) and 2^(3/4) to within one part in 2000 of the squares and fourth powers. */
  lemma {:induction false} FactorQuarters()
    ensures Factor(16384) == 77938 && Factor(32768) == 92674 && Factor(49152) == 110225
    ensures var f, g, h, one := 77938, 92674, 110225, 65536;
            && 1999 * (2 * one * one) <= 2000 * (g * g) <= 2001 * (2 * one * one)
            && 1999 * (2 * one * one * one * one) <= 2000 * (f * f * f * f) <= 2001 * (2 * one * one * one * one)
            && 1999 * (8 * one * one * one * one) <= 2000 * (h * h * h * h) <= 2001 * (8 * one * one * one * one)
  {
    hide Cubic;
    CubicIs(16384);
    CubicIs(32768);
    CubicIs(49152);
  }

  // ---- ASERT on a branch ----

  /** 2^k times `ref`, rounded down, kept between one and the network's maximum. */
  function Doubled(ref: nat, k: int, max: nat): nat {
    var x := if k >= 0 then Shl(ref, k) else Shr(ref, -k);
    if x < 1 then 1 else if x > max then max else x
  }

  lemma {:induction false} ExponentOf(spacing: int, n: int, k: int, halfLife: int)
    requires halfLife > 0
    ensures Exponent(spacing, n * spacing + k * halfLife, n - 1, halfLife) == k * 65536
  {
    assert (n * spacing + k * halfLife - (n - 1 + 1) * spacing) * 65536 == (k * 65536) * halfLife;
    TruncExact(k * 65536, halfLife);
  }

  lemma {:induction false} TruncExact(q: int, d: int)
    requires d > 0
    ensures TruncDiv(q * d, d) == q
  {
    if q >= 0 {
      MulNonneg(q, d);
      DivUnique(q * d, d, q);
    } else {
      MulNonneg(-q, d);
      assert -(q * d) == (-q) * d;
      assert q * d <= 0;
      DivUnique((-q) * d, d, -q);
    }
  }

  /** With ASERT active, a parent that is `k` half-lives behind the schedule that starts at the anchor's parent doubles the
      anchor's target `k` times, and one that is `-k` ahead halves it as often. */
  lemma {:induction false} ScheduleSetsTarget(p: Params, headers: seq<Header>, k: int)
    requires UsableParams(p) && p.targetBlockTime > 0
    requires var a, h := p.asertActivationHeight, |headers|;
             && 0 < a <= h
             && headers[h - 1].time == headers[a - 2].time + (h - a + 1) * p.targetBlockTime + k * p.asertHalfLife
    ensures BranchBits(p, headers) ==
            TargetToCompact(Doubled(CompactToTarget(headers[p.asertActivationHeight - 1].bits), k, CompactToTarget(p.maxTargetBits)))
  {
    hide CompactToTarget, TargetToCompact, Pow256, Unclamped, Exponent, Shl, Shr;
    var a, h := p.asertActivationHeight, |headers|;
    var ref := CompactToTarget(headers[a - 1].bits);
    ExponentOf(p.targetBlockTime, h - a + 1, k, p.asertHalfLife);
    WholeHalfLives(ref, k);
    NothingShifted(k);
  }

  lemma {:induction false} NothingShifted(k: int)
    ensures k >= 0 ==> Shl(0, k) == 0
    ensures k < 0 ==> Shr(0, -k) == 0
  {
    hide Pow2;
    if k < 0 {
      DivUnique(0, Pow2(-k), 0);
    }
  }

  /** Exactly on schedule the anchor's target stands, rounded once. */
  lemma {:induction false} OnScheduleKeepsAnchor(p: Params, headers: seq<Header>)
    requires UsableParams(p) && p.targetBlockTime > 0
    requires var a, h := p.asertActivationHeight, |headers|;
             && 0 < a <= h
             && headers[h - 1].time == headers[a - 2].time + (h - a + 1) * p.targetBlockTime
             && 0 < CompactToTarget(headers[a - 1].bits) <= CompactToTarget(p.maxTargetBits)
    ensures BranchBits(p, headers) == TargetToCompact(CompactToTarget(headers[p.asertActivationHeight - 1].bits))
  {
    hide CompactToTarget, TargetToCompact, Pow256, BranchBits, Shr;
    ScheduleSetsTarget(p, headers, 0);
    assert Pow2(0) == 1;
  }

  // ---- later parents ----

  lemma {:induction false} RoundedLe(t: nat, t': nat)
    requires t <= t' < Pow256(32)
    ensures CompactToTarget(TargetToCompact(t)) <= CompactToTarget(TargetToCompact(t'))
  {
    hide Pow256;
    if t == 0 {
      ZeroCode();
    } else {
      RoundMonotone(t, t');
    }
  }

  lemma {:induction false} ZeroCode()
    ensures CompactToTarget(TargetToCompact(0)) == 0
  {
    Pow256Values();
  }

  lemma {:induction false} LaterCalculated(ref: nat, spacing: int, t: int, t': int, heightDiff: int, halfLife: int, max: nat)
    requires t <= t' && max > 0
    ensures Calculated(ref, spacing, t, heightDiff, halfLife, max) <= Calculated(ref, spacing, t', heightDiff, halfLife, max)
  {
    hide AsertTarget;
    if ref > 0 && halfLife > 0 {
      TargetMonotoneInTime(ref, spacing, t, t', heightDiff, halfLife, max);
    }
  }

  lemma {:induction false} LaterLegacy(p: Params, prior: nat, actual: int, actual': int)
    requires actual <= actual'
    ensures LegacyTarget(p, prior, actual) <= LegacyTarget(p, prior, actual')
  {
    hide MaxTarget, ExpectedSpan;
    var e := ExpectedSpan(p);
    var c, c' := ClampActual(actual, e), ClampActual(actual', e);
    MulMono(c, c', prior);
    DivMono(prior * c, prior * c', e);
  }

  ghost function ParentAt(headers: seq<Header>, t: I64): (r: seq<Header>)
    requires |headers| > 0
    ensures |r| == |headers|
    ensures forall i :: 0 <= i < |headers| - 1 ==> r[i] == headers[i]
    ensures r[|headers| - 1] == headers[|headers| - 1].(time := t)
  {
    headers[|headers| - 1 := headers[|headers| - 1].(time := t)]
  }

  /** At every height, a later parent never makes the required target harder. */
  lemma {:induction false} LaterParentNeverHarder(p: Params, headers: seq<Header>, t: I64)
    requires UsableParams(p) && |headers| > 0 && headers[|headers| - 1].time <= t
    ensures CompactToTarget(BranchBits(p, headers)) <= CompactToTarget(BranchBits(p, ParentAt(headers, t)))
  {
    hide CompactToTarget, TargetToCompact, Pow256, Calculated, LegacyTarget;
    var h, later := |headers|, ParentAt(headers, t);
    var last, last' := headers[h - 1].time, later[h - 1].time;
    if AsertActive(p, h) {
      var a := p.asertActivationHeight;
      var ref, n := CompactToTarget(headers[a - 1].bits), h - a;
      LaterCalculated(ref, p.targetBlockTime, last - headers[a - 2].time, last' - headers[a - 2].time, n, p.asertHalfLife, MaxTarget(p));
      CalculatedWithin(ref, p.targetBlockTime, last' - headers[a - 2].time, n, p.asertHalfLife, MaxTarget(p));
      RoundedLe(Calculated(ref, p.targetBlockTime, last - headers[a - 2].time, n, p.asertHalfLife, MaxTarget(p)),
                Calculated(ref, p.targetBlockTime, last' - headers[a - 2].time, n, p.asertHalfLife, MaxTarget(p)));
    } else if h % p.retargetInterval == 0 {
      RetargetStart(h, p.retargetInterval);
      var prior, first, first' := CompactToTarget(headers[h - 1].bits), headers[h - p.retargetInterval].time, later[h - p.retargetInterval].time;
      LaterLegacy(p, prior, last - first, last' - first');
      LegacyBelow(p, prior, last' - first');
      RoundedLe(LegacyTarget(p, prior, last - first), LegacyTarget(p, prior, last' - first'));
    }
  }

  lemma {:induction false} LegacyBelow(p: Params, prior: nat, actual: int)
    ensures LegacyTarget(p, prior, actual) <= MaxTarget(p)
  {
    hide MaxTarget, Proportion;
  }

  // ---- the legacy rule ----

  /** Before ASERT, only every `retargetInterval`-th height changes the bits. */
  lemma {:induction false} BetweenRetargetsUnchanged(p: Params, headers: seq<Header>)
    requires UsableParams(p) && |headers| > 0
    requires p.asertActivationHeight == 0 || |headers| < p.asertActivationHeight
    requires |headers| % p.retargetInterval != 0
    ensures BranchBits(p, headers) == headers[|headers| - 1].bits
  {
    hide CompactToTarget, TargetToCompact, Pow256;
  }

  /** The span a retarget compares: the interval's first block to the parent. */
  ghost function Span(p: Params, headers: seq<Header>): int
    requires p.retargetInterval > 0 && |headers| > 0 && |headers| % p.retargetInterval == 0
  {
    RetargetStart(|headers|, p.retargetInterval);
    headers[|headers| - 1].time - headers[|headers| - p.retargetInterval].time
  }

  lemma {:induction false} KeptByProportion(prior: nat, e: int)
    requires e > 0
    ensures Proportion(prior, ClampActual(e, e), e) == prior
  {
    assert e / 4 <= e <= e * 4;
    DivUnique(prior * e, e, prior);
  }

  /** At a retarget whose span is exactly the expected one the parent's target stands; a span four times as long or longer
      quadruples it, and one of a quarter or less scales it by that quarter; the network's maximum caps all of them. */
  lemma {:induction false} RetargetBySpan(p: Params, headers: seq<Header>)
    requires UsableParams(p) && |headers| > 0
    requires p.asertActivationHeight == 0 || |headers| < p.asertActivationHeight
    requires |headers| % p.retargetInterval == 0
    ensures var planned := p.targetBlockTime * (p.retargetInterval - 1);
            var e, prior, max := if planned > 0 then planned else 1, CompactToTarget(headers[|headers| - 1].bits),
                                 CompactToTarget(p.maxTargetBits);
            && (Span(p, headers) == e ==> BranchBits(p, headers) == TargetToCompact(if prior > max then max else prior))
            && (Span(p, headers) >= 4 * e ==> BranchBits(p, headers) == TargetToCompact(if 4 * prior > max then max else 4 * prior))
            && (Span(p, headers) <= e / 4 ==>
                  BranchBits(p, headers) == TargetToCompact(if prior * (e / 4) / e > max then max else prior * (e / 4) / e))
            && (e / 4 <= Span(p, headers) <= 4 * e ==>
                  var scaled := prior * Span(p, headers) / e;
                  BranchBits(p, headers) == TargetToCompact(if scaled > max then max else scaled))
  {
    hide CompactToTarget, TargetToCompact, Pow256, Proportion, ClampActual;
    RetargetStart(|headers|, p.retargetInterval);
    var e, prior := ExpectedSpan(p), CompactToTarget(headers[|headers| - 1].bits);
    ClampedSpan(Span(p, headers), e);
    KeptByProportion(prior, e);
    Quadrupled(prior, e);
    ProportionIs(prior, e / 4, e);
    if e / 4 <= Span(p, headers) <= 4 * e {
      ProportionIs(prior, Span(p, headers), e);
    }
  }

  lemma {:induction false} ClampedSpan(span: int, e: int)
    requires e > 0
    ensures ClampActual(span, e) == if span < e / 4 then e / 4 else if span > 4 * e then 4 * e else span
  {
  }

  lemma {:induction false} ProportionIs(x: nat, n: nat, d: int)
    requires d > 0
    ensures Proportion(x, n, d) == x * n / d
  {
  }

  lemma {:induction false} Quadrupled(prior: nat, e: int)
    requires e > 0
    ensures Proportion(prior, 4 * e, e) == 4 * prior
  {
    assert prior * (4 * e) == (4 * prior) * e;
    DivUnique(prior * (4 * e), e, 4 * prior);
  }

  /** A chain starts at the network's maximum target. */
  lemma {:induction false} FirstBits(p: Params)
    requires UsableParams(p)
    ensures BranchBits(p, []) == p.maxTargetBits
  {
    hide CompactToTarget, Pow256;
  }

  // ---- work ----

  /** Work is 2^256 over the number of hash values that meet the target, rounded down. */
  lemma {:induction false} WorkBounds(target: nat)
    ensures WorkFromTarget(target) * (target + 1) <= Pow2(256) < (WorkFromTarget(target) + 1) * (target + 1)
  {
    hide Pow2;
    DivBounds(Pow2(256), target + 1);
  }

  /** The network's easiest targets: 0xffff * 256^28 and 0x7fffff * 256^29. */
  lemma {:induction false} EasiestTargets(headline: seq<Byte>)
    ensures MaxTarget(MainNet(headline)) == 0xffff * Pow256(28)
    ensures MaxTarget(RegTest(headline)) == 0x7f_ffff * Pow256(29)
  {
    hide Pow256;
  }
}
