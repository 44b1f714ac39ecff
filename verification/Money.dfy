/** Monetary range checks and the block subsidy (core/params.go), and the explorer's fast subsidy sum. */
module Money {
  import opened Types
  import opened Bits

  const UNITS_PER_COIN := 100_000_000
  const MAX_MONEY := 21_000_000 * UNITS_PER_COIN
  const INITIAL_REWARD := 50 * UNITS_PER_COIN
  const HALVING_INTERVAL := 210_000
  const MAX_HALVINGS := 64

  predicate MoneyRange(value: int) {
    0 <= value <= MAX_MONEY
  }

  /** Addition that refuses to leave the money range; the intermediate `MAX_MONEY - right`
      cannot overflow because `right` was range-checked first. */
  function CheckedAdd(left: int, right: int): (r: Option<int>)
    ensures r == (if left >= 0 && right >= 0 && left + right <= MAX_MONEY then Some(left + right) else None)
  {
    if !MoneyRange(left) || !MoneyRange(right) || left > MAX_MONEY - right then None
    else Some(left + right)
  }

  function EraReward(halvings: nat): nat {
    Shr(INITIAL_REWARD, halvings)
  }

  function SubsidyAt(height: nat): nat {
    var halvings := height / HALVING_INTERVAL;
    if halvings >= MAX_HALVINGS then 0 else EraReward(halvings)
  }

  /** Everything minted by the first `count` blocks. */
  function MintedBy(count: nat): nat {
    if count == 0 then 0 else MintedBy(count - 1) + SubsidyAt(count - 1)
  }

  lemma {:induction false} EraRewardHalves(k: nat)
    ensures EraReward(k + 1) == EraReward(k) / 2
  {
    DivDiv(INITIAL_REWARD, Pow2(k), 2);
    assert Pow2(k) * 2 == Pow2(k + 1);
  }

  lemma {:induction false} SubsidyInEra(k: nat, i: nat)
    requires k < MAX_HALVINGS && i < HALVING_INTERVAL
    ensures SubsidyAt(k * HALVING_INTERVAL + i) == EraReward(k)
  {
    DivUnique(k * HALVING_INTERVAL + i, HALVING_INTERVAL, k);
  }

  /** Within one era the subsidy is constant, so the sum grows linearly. */
  lemma {:induction false} MintedInEra(k: nat, n: nat)
    requires k < MAX_HALVINGS && n <= HALVING_INTERVAL
    ensures MintedBy(k * HALVING_INTERVAL + n) == MintedBy(k * HALVING_INTERVAL) + n * EraReward(k)
  {
    if n > 0 {
      hide EraReward, SubsidyAt;
      var reward := EraReward(k);
      MintedInEra(k, n - 1);
      SubsidyInEra(k, n - 1);
      var count := k * HALVING_INTERVAL + n;
      assert count - 1 == k * HALVING_INTERVAL + (n - 1);
      assert MintedBy(count) == MintedBy(count - 1) + reward;
      assert n * reward == (n - 1) * reward + reward;
    }
  }

  /** A geometric bound: what whole eras minted plus two more rewards per block never exceeds the cap. */
  lemma {:induction false} ErasBound(k: nat)
    requires k <= MAX_HALVINGS
    ensures MintedBy(k * HALVING_INTERVAL) + 2 * HALVING_INTERVAL * EraReward(k) <= MAX_MONEY
  {
    if k == 0 {
      FirstReward();
    } else {
      hide EraReward, SubsidyAt, MintedBy;
      ErasBound(k - 1);
      MintedInEra(k - 1, HALVING_INTERVAL);
      assert (k - 1) * HALVING_INTERVAL + HALVING_INTERVAL == k * HALVING_INTERVAL;
      EraRewardHalves(k - 1);
      HalvedBound(MintedBy((k - 1) * HALVING_INTERVAL), EraReward(k - 1), HALVING_INTERVAL);
    }
  }

  lemma {:induction false} HalvedBound(minted: nat, reward: nat, blocks: nat)
    ensures minted + blocks * reward + 2 * blocks * (reward / 2) <= minted + 2 * blocks * reward
  {
    assert 2 * blocks * (reward / 2) == blocks * (2 * (reward / 2));
    MulMono(2 * (reward / 2), reward, blocks);
  }

  lemma {:induction false} MintedAfterLastEra(count: nat)
    requires count >= MAX_HALVINGS * HALVING_INTERVAL
    ensures MintedBy(count) == MintedBy(MAX_HALVINGS * HALVING_INTERVAL)
  {
    if count > MAX_HALVINGS * HALVING_INTERVAL {
      MintedAfterLastEra(count - 1);
      DivMono(MAX_HALVINGS * HALVING_INTERVAL, count - 1, HALVING_INTERVAL);
      DivUnique(MAX_HALVINGS * HALVING_INTERVAL, HALVING_INTERVAL, MAX_HALVINGS);
    }
  }

  /** The 21 million cap: no number of blocks mints more than the maximum. */
  lemma {:induction false} MintedWithinCap(count: nat)
    ensures MintedBy(count) <= MAX_MONEY
  {
    if count >= MAX_HALVINGS * HALVING_INTERVAL {
      MintedAfterLastEra(count);
      ErasBound(MAX_HALVINGS);
    } else {
      var k, n := count / HALVING_INTERVAL, count % HALVING_INTERVAL;
      assert count == k * HALVING_INTERVAL + n;
      MintedInEra(k, n);
      ErasBound(k);
      MulMono(n, 2 * HALVING_INTERVAL, EraReward(k));
    }
  }

  lemma {:induction false} MintedMono(a: nat, b: nat)
    requires a <= b
    ensures MintedBy(a) <= MintedBy(b)
  {
    hide SubsidyAt;
    if a < b {
      MintedMono(a, b - 1);
    }
  }

  lemma {:induction false} RewardStaysZero(k: nat, j: nat)
    requires k <= j && EraReward(k) == 0
    ensures EraReward(j) == 0
  {
    if k < j {
      RewardStaysZero(k, j - 1);
      EraRewardHalves(j - 1);
    }
  }

  lemma {:induction false} RewardEnds()
    ensures EraReward(32) == 1 && EraReward(33) == 0
  {
    Pow2Values();
    Pow2Add(16, 16);
    DivUnique(INITIAL_REWARD, Pow2(32), 1);
    EraRewardHalves(32);
  }

  /** The subsidy is positive for exactly 33 eras. */
  lemma {:induction false} SubsidyPositiveIff(height: nat)
    ensures SubsidyAt(height) > 0 <==> height < 33 * HALVING_INTERVAL
  {
    var k := height / HALVING_INTERVAL;
    RewardEnds();
    if k >= 33 {
      RewardStaysZero(33, k);
    } else if EraReward(k) == 0 {
      RewardStaysZero(k, 32);
    }
  }

  /** The first 210,000 blocks earn 50 coins each, and from then on a block earns half, rounded down, of what the block 210,000
      heights below it earned. */
  lemma {:induction false} SubsidyHalves(height: nat)
    ensures height < 210_000 ==> SubsidyAt(height) == 5_000_000_000
    ensures SubsidyAt(height + 210_000) == SubsidyAt(height) / 2
  {
    hide EraReward;
    var k := height / HALVING_INTERVAL;
    assert (height + HALVING_INTERVAL) / HALVING_INTERVAL == k + 1;
    EraRewardHalves(k);
    FirstReward();
    if k + 1 == MAX_HALVINGS {
      RewardEnds();
      RewardStaysZero(33, 63);
    }
  }

  lemma {:induction false} FirstReward()
    ensures EraReward(0) == INITIAL_REWARD
  {
    assert Pow2(0) == 1;
  }

  /** Once the reward is zero nothing more is minted. */
  lemma {:induction false} MintedFrozen(k: nat, count: nat)
    requires k <= MAX_HALVINGS && EraReward(k) == 0 && count >= k * HALVING_INTERVAL
    ensures MintedBy(count) == MintedBy(k * HALVING_INTERVAL)
  {
    if count > k * HALVING_INTERVAL {
      MintedFrozen(k, count - 1);
      var j := (count - 1) / HALVING_INTERVAL;
      DivMono(k * HALVING_INTERVAL, count - 1, HALVING_INTERVAL);
      DivUnique(k * HALVING_INTERVAL, HALVING_INTERVAL, k);
      RewardStaysZero(k, j);
    }
  }

  /** The explorer's per-era loop computes the same sum as adding the subsidy of every height. */
  method TotalSubsidyThrough(height: int) returns (total: int)
    ensures total == if height < 0 then 0 else MintedBy(height + 1)
    ensures MoneyRange(total)
  {
    if height < 0 {
      return 0;
    }
    total := 0;
    var halving := 0;
    while halving < MAX_HALVINGS
      invariant 0 <= halving <= MAX_HALVINGS
      invariant total == if height + 1 <= halving * HALVING_INTERVAL
                         then MintedBy(height + 1) else MintedBy(halving * HALVING_INTERVAL)
    {
      var subsidy := EraReward(halving);
      if subsidy == 0 {
        if height + 1 > halving * HALVING_INTERVAL {
          MintedFrozen(halving, height + 1);
        }
        break;
      }
      var start := halving * HALVING_INTERVAL;
      if height < start {
        break;
      }
      var end := start + HALVING_INTERVAL - 1;
      if height < end {
        end := height;
      }
      MintedInEra(halving, end - start + 1);
      total := total + (end - start + 1) * subsidy;
      halving := halving + 1;
    }
    if halving == MAX_HALVINGS && height + 1 > MAX_HALVINGS * HALVING_INTERVAL {
      MintedAfterLastEra(height + 1);
    }
    MintedWithinCap(height + 1);
  }
}
