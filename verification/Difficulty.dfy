/** Required difficulty bits of the next block (core/pow.go, `NextBits`). */
module Difficulty {
  import opened Types
  import opened Bits
  import opened Compact
  import opened Asert
  import opened Params

  function MaxTarget(p: Params): nat {
    CompactToTarget(p.maxTargetBits)
  }

  /** What a network must satisfy for its arithmetic to be meaningful; both canonical networks do. */
  predicate UsableParams(p: Params) {
    && ValidConsensusParams(p)
    && p.retargetInterval > 0
    && 0 < MaxTarget(p) < Pow256(32)
  }

  function ClampActual(actual: int, expected: int): nat
    requires expected > 0
  {
    if actual < expected / 4 then expected / 4
    else if actual > expected * 4 then expected * 4
    else actual
  }

  function ExpectedSpan(p: Params): (r: int)
    ensures r > 0
  {
    var expected := p.targetBlockTime * (p.retargetInterval - 1);
    if expected <= 0 then 1 else expected
  }

  function Proportion(x: nat, num: nat, den: int): nat
    requires den > 0
  {
    MulNonneg(x, num);
    DivNonneg(x * num, den);
    x * num / den
  }

  /** The legacy retarget: scale by elapsed over expected time, at most fourfold either way. */
  function LegacyTarget(p: Params, prior: nat, actual: int): nat {
    var expected := ExpectedSpan(p);
    var scaled := Proportion(prior, ClampActual(actual, expected), expected);
    if scaled > MaxTarget(p) then MaxTarget(p) else scaled
  }

  function LegacyBits(p: Params, parentBits: U32, actual: int): U32 {
    TargetToCompact(LegacyTarget(p, CompactToTarget(parentBits), actual))
  }

  /** ASERT from the anchor block's bits and the time elapsed since the anchor's parent. */
  function AsertBits(p: Params, height: int, anchorBits: U32, elapsed: int): U32 {
    TargetToCompact(
      Calculated(CompactToTarget(anchorBits), p.targetBlockTime, elapsed, height - p.asertActivationHeight,
                 p.asertHalfLife, MaxTarget(p)))
  }

  /** The required bits at `height`, read through accessors for the ancestors on the same branch. */
  function NextBits(p: Params, height: nat, bitsAt: nat --> U32, timeAt: nat --> I64): U32
    requires UsableParams(p)
    requires forall h: nat :: h < height ==> bitsAt.requires(h)
    requires forall h: nat :: h < height ==> timeAt.requires(h)
  {
    if height == 0 then p.maxTargetBits
    else if AsertActive(p, height) then
      var anchor := p.asertActivationHeight - 1;
      AsertBits(p, height, bitsAt(anchor), timeAt(height - 1) - timeAt(anchor - 1))
    else if height % p.retargetInterval != 0 then bitsAt(height - 1)
    else
      RetargetStart(height, p.retargetInterval);
      var first := height - p.retargetInterval;
      LegacyBits(p, bitsAt(height - 1), timeAt(height - 1) - timeAt(first))
  }

  lemma {:induction false} RetargetStart(height: nat, interval: int)
    requires height > 0 && interval > 0 && height % interval == 0
    ensures interval <= height
  {
    if height < interval {
      DivUnique(height, interval, 0);
    }
  }

  /** Required bits as a function of the branch itself. */
  function BranchBits(p: Params, headers: seq<Header>): U32
    requires UsableParams(p)
  {
    NextBits(p, |headers|, BitsOf(headers), TimeOf(headers))
  }

  function BitsOf(headers: seq<Header>): nat --> U32 {
    (h: nat) requires h < |headers| => headers[h].bits
  }

  function TimeOf(headers: seq<Header>): nat --> I64 {
    (h: nat) requires h < |headers| => headers[h].time
  }

  /** Two ways of looking ancestors up that agree below `height` require the same bits. */
  lemma {:induction false} SameAccessors(p: Params, height: nat, bitsAt: nat --> U32, timeAt: nat --> I64, headers: seq<Header>)
    requires UsableParams(p) && |headers| == height
    requires forall h: nat :: h < height ==> bitsAt.requires(h) && bitsAt(h) == headers[h].bits
    requires forall h: nat :: h < height ==> timeAt.requires(h) && timeAt(h) == headers[h].time
    ensures NextBits(p, height, bitsAt, timeAt) == BranchBits(p, headers)
  {
    hide AsertBits, LegacyBits, MaxTarget, CompactToTarget, Pow256;
    if height > 0 && !AsertActive(p, height) && height % p.retargetInterval == 0 {
      RetargetStart(height, p.retargetInterval);
    }
  }

  lemma {:induction false} CompactWithin(t: nat, max: nat)
    requires t <= max < Pow256(32)
    ensures CompactToTarget(TargetToCompact(t)) <= max
  {
    if t > 0 {
      RoundsDown(t);
    } else {
      Pow256Values();
      assert CompactToTarget(0) == 0;
    }
  }

  lemma {:induction false} CalculatedWithin(ref: int, spacing: int, elapsed: int, heightDiff: int, halfLife: int, max: nat)
    requires max > 0
    ensures 1 <= Calculated(ref, spacing, elapsed, heightDiff, halfLife, max) <= max
  {
    hide Unclamped, Exponent;
  }

  lemma {:induction false} AsertWithin(p: Params, height: int, anchorBits: U32, elapsed: int)
    requires UsableParams(p)
    ensures CompactToTarget(AsertBits(p, height, anchorBits, elapsed)) <= MaxTarget(p)
  {
    hide TargetToCompact, CompactToTarget, Pow256, AsertTarget;
    CalculatedWithin(CompactToTarget(anchorBits), p.targetBlockTime, elapsed, height - p.asertActivationHeight,
                     p.asertHalfLife, MaxTarget(p));
    CompactWithin(
      Calculated(CompactToTarget(anchorBits), p.targetBlockTime, elapsed, height - p.asertActivationHeight,
                 p.asertHalfLife, MaxTarget(p)),
      MaxTarget(p));
  }

  lemma {:induction false} LegacyWithin(p: Params, parentBits: U32, actual: int)
    requires UsableParams(p)
    ensures CompactToTarget(LegacyBits(p, parentBits, actual)) <= MaxTarget(p)
  {
    hide TargetToCompact, CompactToTarget, Pow256;
    CompactWithin(LegacyTarget(p, CompactToTarget(parentBits), actual), MaxTarget(p));
  }

  /** However the ancestors look, the required target never exceeds the network maximum,
      provided the parent's does not. */
  lemma {:induction false} RequiredWithinMax(p: Params, height: nat, bitsAt: nat --> U32, timeAt: nat --> I64)
    requires UsableParams(p)
    requires forall h: nat :: h < height ==> bitsAt.requires(h)
    requires forall h: nat :: h < height ==> timeAt.requires(h)
    requires height > 0 ==> CompactToTarget(bitsAt(height - 1)) <= MaxTarget(p)
    ensures CompactToTarget(NextBits(p, height, bitsAt, timeAt)) <= MaxTarget(p)
  {
    hide AsertBits, LegacyBits, CompactToTarget, Pow256;
    if height > 0 {
      if AsertActive(p, height) {
        AsertCase(p, height, bitsAt, timeAt);
      } else {
        LegacyCase(p, height, bitsAt, timeAt);
      }
    }
  }

  lemma {:induction false} BranchWithinMax(p: Params, headers: seq<Header>)
    requires UsableParams(p)
    requires |headers| > 0 ==> CompactToTarget(headers[|headers| - 1].bits) <= MaxTarget(p)
    ensures CompactToTarget(BranchBits(p, headers)) <= MaxTarget(p)
  {
    hide CompactToTarget, NextBits, Pow256;
    RequiredWithinMax(p, |headers|, BitsOf(headers), TimeOf(headers));
  }

  lemma {:induction false} AsertCase(p: Params, height: nat, bitsAt: nat --> U32, timeAt: nat --> I64)
    requires UsableParams(p) && AsertActive(p, height)
    requires forall h: nat :: h < height ==> bitsAt.requires(h)
    requires forall h: nat :: h < height ==> timeAt.requires(h)
    ensures CompactToTarget(NextBits(p, height, bitsAt, timeAt)) <= MaxTarget(p)
  {
    hide AsertBits, CompactToTarget, Pow256;
    var anchor := p.asertActivationHeight - 1;
    AsertWithin(p, height, bitsAt(anchor), timeAt(height - 1) - timeAt(anchor - 1));
  }

  lemma {:induction false} LegacyCase(p: Params, height: nat, bitsAt: nat --> U32, timeAt: nat --> I64)
    requires UsableParams(p) && height > 0 && !AsertActive(p, height)
    requires forall h: nat :: h < height ==> bitsAt.requires(h)
    requires forall h: nat :: h < height ==> timeAt.requires(h)
    requires CompactToTarget(bitsAt(height - 1)) <= MaxTarget(p)
    ensures CompactToTarget(NextBits(p, height, bitsAt, timeAt)) <= MaxTarget(p)
  {
    hide LegacyBits, CompactToTarget, Pow256;
    if height % p.retargetInterval == 0 {
      RetargetStart(height, p.retargetInterval);
      LegacyWithin(p, bitsAt(height - 1), timeAt(height - 1) - timeAt(height - p.retargetInterval));
    }
  }

  /** The legacy rule never more than quadruples a target, and never quarters it further than rounding. */
  lemma {:induction false} LegacyClamp(p: Params, prior: nat, actual: int)
    requires prior <= MaxTarget(p)
    ensures LegacyTarget(p, prior, actual) <= 4 * prior
    ensures LegacyTarget(p, prior, actual) >= prior * (ExpectedSpan(p) / 4) / ExpectedSpan(p)
  {
    hide MaxTarget, ExpectedSpan;
    LegacyScale(prior, actual, ExpectedSpan(p));
  }

  lemma {:induction false} LegacyScale(prior: nat, actual: int, e: int)
    requires e > 0
    ensures prior * (e / 4) / e <= prior * ClampActual(actual, e) / e <= 4 * prior
    ensures prior * (e / 4) / e <= prior
  {
    var a := ClampActual(actual, e);
    MulMono(a, 4 * e, prior);
    MulMono(e / 4, a, prior);
    DivMono(prior * a, (4 * prior) * e, e);
    DivCancel(4 * prior, 1, e);
    DivMono(prior * (e / 4), prior * a, e);
    MulMono(e / 4, e, prior);
    DivMono(prior * (e / 4), prior * e, e);
    DivCancel(prior, 1, e);
  }

  lemma {:induction false} CanonicalNetworksUsable(headline: seq<Byte>)
    ensures UsableParams(MainNet(headline))
    ensures UsableParams(RegTest(headline))
  {
    MainNetMax(headline);
    RegTestMax(headline);
    hide MaxTarget, Pow256;
  }

  lemma {:induction false} MainNetMax(headline: seq<Byte>)
    ensures 0 < MaxTarget(MainNet(headline)) < Pow256(32)
  {
    hide Pow256;
    Pow256Values();
    Pow256Add(28, 4);
    Pow256Add(1, 3);
    MulMono(0xffff + 1, Pow256(4), Pow256(28));
    MulMono(1, 0xffff, Pow256(28));
  }

  lemma {:induction false} RegTestMax(headline: seq<Byte>)
    ensures 0 < MaxTarget(RegTest(headline)) < Pow256(32)
  {
    hide Pow256;
    Pow256Values();
    Pow256Add(29, 3);
    MulMono(0x7f_ffff + 1, Pow256(3), Pow256(29));
    MulMono(1, 0x7f_ffff, Pow256(29));
  }

  /** Work of a block at any target the network can require. */
  lemma {:induction false} RequiredWorkPositive(p: Params, bits: U32)
    requires UsableParams(p) && CompactToTarget(bits) <= MaxTarget(p)
    ensures WorkFromTarget(CompactToTarget(bits)) >= 1
  {
    hide WorkFromTarget, CompactToTarget, Pow2, Pow256;
    Pow256IsPow2(32);
    WorkPositive(CompactToTarget(bits));
  }
}
