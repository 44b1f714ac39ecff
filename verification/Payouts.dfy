/** The exact-sum coinbase allocation of a PPLNS window (pool/pplns.go). */
module Payouts {
  import opened Types
  import opened Bits
  import opened Money
  import opened Sorting
  import opened Order
  import opened Apportion

  /** Address encoding, left abstract. */
  datatype Codec = Codec(decode: string -> Option<Pkh>, encode: Pkh -> string)

  predicate ValidAddress(c: Codec, a: string) {
    match c.decode(a)
    case None => false
    case Some(pkh) => pkh != ZERO_PKH && c.encode(pkh) == a
  }

  function PkhOf(c: Codec, a: string): Pkh {
    match c.decode(a)
    case None => ZERO_PKH
    case Some(pkh) => pkh
  }

  // ---- the addresses of a weight map ----

  /** A listing of the map's addresses in some order. */
  ghost predicate Lists(weights: Weights, keys: seq<string>) {
    multiset(keys) == multiset(weights.Keys)
  }

  lemma {:induction false} ListingFacts(weights: Weights, keys: seq<string>)
    requires Lists(weights, keys)
    ensures |keys| == |weights| && Distinct(keys)
    ensures forall a :: a in keys <==> a in weights
  {
    assert |multiset(keys)| == |keys| && |multiset(weights.Keys)| == |weights.Keys|;
    forall a ensures a in keys <==> a in weights {
      assert a in keys <==> a in multiset(keys);
    }
  }

  lemma {:induction false} ListingExists(weights: Weights)
    ensures exists keys :: Lists(weights, keys)
    decreases |weights|
  {
    if weights == map[] {
      assert Lists(weights, []);
    } else {
      var a :| a in weights;
      ListingExists(weights - {a});
      var rest :| Lists(weights - {a}, rest);
      assert multiset([a] + rest) == multiset{a} + multiset(rest);
      assert weights.Keys == {a} + (weights - {a}).Keys;
      assert Lists(weights, [a] + rest);
    }
  }

  /** The addresses in ascending order. */
  ghost function AddressList(weights: Weights): (r: seq<string>)
    ensures Lists(weights, r)
  {
    ListingExists(weights);
    var keys :| Lists(weights, keys);
    SortPermutes(keys, LexLe);
    Sort(keys, LexLe)
  }

  /** Any listing, once sorted, is that one. */
  lemma {:induction false} SortedListing(weights: Weights, keys: seq<string>)
    requires Lists(weights, keys)
    ensures Sort(keys, LexLe) == AddressList(weights)
  {
    ListingExists(weights);
    var other :| Lists(weights, other) && AddressList(weights) == Sort(other, LexLe);
    SortAnyOrder(keys, other);
  }

  // ---- the allocation as a function of the weights ----

  const MAX_WORK_BITS := 268

  lemma {:induction false} WorkSumNonneg(weights: Weights, keys: seq<string>)
    ensures Sum(keys, WorkFn(weights)) >= 0
  {
    if keys != [] {
      WorkSumNonneg(weights, keys[1..]);
    }
  }

  ghost function TotalWork(weights: Weights): nat {
    WorkSumNonneg(weights, AddressList(weights));
    Sum(AddressList(weights), WorkFn(weights))
  }

  lemma {:induction false} TotalOfListing(weights: Weights, keys: seq<string>)
    requires Lists(weights, keys)
    ensures Sum(keys, WorkFn(weights)) == TotalWork(weights)
  {
    hide Sum, AddressList;
    SumAnyOrder(keys, AddressList(weights), WorkFn(weights));
  }

  ghost function SplitOf(weights: Weights, reward: nat): Split {
    Split(weights, reward, TotalWork(weights))
  }

  predicate ValidWeight(c: Codec, weights: Weights, a: string)
    requires a in weights
  {
    ValidAddress(c, a) && weights[a] > 0 && BitLen(weights[a]) <= MAX_WORK_BITS
  }

  /** The input checks of `pplnsOutputsFromWork`. */
  ghost predicate Payable(c: Codec, weights: Weights, reward: int) {
    && 0 < reward <= MAX_MONEY
    && 0 < |weights| <= 256 && |weights| <= reward
    && (forall a :: a in weights ==> ValidWeight(c, weights, a))
    && TotalWork(weights) > 0 && BitLen(TotalWork(weights)) <= MAX_WORK_BITS
  }

  lemma {:induction false} PayableReady(c: Codec, weights: Weights, reward: nat, keys: seq<string>)
    requires Payable(c, weights, reward) && Lists(weights, keys)
    ensures Ready(SplitOf(weights, reward), keys)
  {
    hide ValidWeight, BitLen, Sum, AddressList, TotalWork, Distinct;
    ListingFacts(weights, keys);
    TotalOfListing(weights, keys);
  }

  /** What each address is due, as a function on addresses. */
  ghost function Due(c: Codec, weights: Weights, reward: nat): string -> int
    requires Payable(c, weights, reward)
  {
    PayableReady(c, weights, reward, AddressList(weights));
    ShareFn(SplitOf(weights, reward), AddressList(weights))
  }

  function OutputFn(c: Codec, due: string -> int): string -> TxOut {
    (a: string) => TxOut(due(a), PkhOf(c, a))
  }

  /** The payout list, a function of the weights and the reward alone: one output per address in address order,
      or nothing when a share would be empty. */
  ghost function PayoutList(c: Codec, weights: Weights, reward: int): Option<seq<TxOut>> {
    if !Payable(c, weights, reward) then None
    else
      var due := Due(c, weights, reward);
      if exists a :: a in weights && due(a) <= 0 then None
      else Some(Map(AddressList(weights), OutputFn(c, due)))
  }

  function OutValueSum(outs: seq<TxOut>): int {
    if outs == [] then 0 else outs[0].value + OutValueSum(outs[1..])
  }

  lemma {:induction false} OutputSum(c: Codec, due: string -> int, keys: seq<string>)
    ensures OutValueSum(Map(keys, OutputFn(c, due))) == Sum(keys, due)
  {
    if keys != [] {
      OutputSum(c, due, keys[1..]);
      assert Map(keys, OutputFn(c, due))[1..] == Map(keys[1..], OutputFn(c, due));
    }
  }

  lemma {:induction false} DueSum(c: Codec, weights: Weights, reward: nat)
    requires Payable(c, weights, reward)
    ensures Sum(AddressList(weights), Due(c, weights, reward)) == reward
  {
    hide Sum, AddressList, Payable, Ready, ShareFn;
    PayableReady(c, weights, reward, AddressList(weights));
    SharesSumToReward(SplitOf(weights, reward), AddressList(weights));
  }

  /** Successful payouts: one positive output per address in ascending address order, adding up to exactly the reward. */
  lemma {:induction false} PayoutsExhaustReward(c: Codec, weights: Weights, reward: int)
    requires PayoutList(c, weights, reward).Some?
    ensures var outs := PayoutList(c, weights, reward).value;
            && |outs| == |weights| && OutValueSum(outs) == reward
            && (forall i :: 0 <= i < |outs| ==> outs[i].value > 0 && outs[i].pkh != ZERO_PKH)
            && (forall i :: 0 <= i < |outs| ==> ValidAddress(c, AddressList(weights)[i]) && outs[i].pkh == PkhOf(c, AddressList(weights)[i]))
    ensures Sorted(AddressList(weights), LexLe) && (forall a :: a in AddressList(weights) <==> a in weights)
  {
    hide Due, TotalWork, BitLen, Sum, AddressList, LexLe, Sorted;
    var keys := AddressList(weights);
    DueSum(c, weights, reward);
    OutputSum(c, Due(c, weights, reward), keys);
    ListingFacts(weights, keys);
    KeysSorted(weights);
    forall i | 0 <= i < |keys| ensures ValidWeight(c, weights, keys[i]) && Due(c, weights, reward)(keys[i]) > 0 {
      assert keys[i] in weights;
    }
  }

  lemma {:induction false} KeysSorted(weights: Weights)
    ensures Sorted(AddressList(weights), LexLe)
  {
    hide LexLe, Sorted, Sort;
    ListingExists(weights);
    var other :| Lists(weights, other) && AddressList(weights) == Sort(other, LexLe);
    LexIsTotalOrder();
    SortSorted(other, LexLe);
  }

  /** Each paid amount is the floor or the ceiling of reward * work / total. */
  lemma {:induction false} EachPaidFloorOrCeiling(c: Codec, weights: Weights, reward: int, i: nat)
    requires PayoutList(c, weights, reward).Some? && i < |weights|
    ensures |PayoutList(c, weights, reward).value| == |AddressList(weights)| == |weights| && AddressList(weights)[i] in weights
    ensures var paid := PayoutList(c, weights, reward).value[i].value * TotalWork(weights);
            var exact := reward * weights[AddressList(weights)[i]];
            exact - TotalWork(weights) < paid < exact + TotalWork(weights)
  {
    hide Payable, TotalWork, Sum, AddressList, Share, Ready, Split.Quota, Split.Rest;
    ListingFacts(weights, AddressList(weights));
    var d, a := SplitOf(weights, reward), AddressList(weights)[i];
    PayableReady(c, weights, reward, AddressList(weights));
    FloorOrCeiling(d, AddressList(weights), a);
  }

  // ---- exactly when the allocation succeeds ----

  /** The addresses ranked at or before `a`: larger remainder first, then smaller address. */
  ghost function Ahead(d: Split, a: string): set<string>
    requires d.total > 0
  {
    set b | b in d.weights && RankLe(d)(b, a)
  }

  lemma {:induction false} SetSize(s: seq<string>)
    requires forall i, j :: 0 <= i < j < |s| ==> s[i] != s[j]
    ensures |set x | x in s| == |s|
  {
    if s != [] {
      var n := |s| - 1;
      var init, last := s[..n], s[n];
      SetSize(init);
      assert s == init + [last];
      assert (set x | x in s) == (set x | x in init) + {last};
      assert last !in init;
    }
  }

  lemma {:induction false} RankedOnce(d: Split, keys: seq<string>)
    requires d.total > 0 && Distinct(keys)
    ensures forall i, j :: 0 <= i < j < |keys| ==> Ranked(d, keys)[i] != Ranked(d, keys)[j]
  {
    hide Ranked, RankLe, Sum, Split.Rest;
    RankedFacts(d, keys);
    forall i, j | 0 <= i < j < |keys| ensures Ranked(d, keys)[i] != Ranked(d, keys)[j] {
      OnceEach(Ranked(d, keys), i, j);
    }
  }

  /** An address at position `p` of the ranking has exactly `p + 1` addresses ranked at or before it. */
  lemma {:induction false} AheadByPosition(d: Split, keys: seq<string>, p: nat)
    requires d.total > 0 && Distinct(keys) && Lists(d.weights, keys) && p < |keys|
    ensures |Ahead(d, Ranked(d, keys)[p])| == p + 1
  {
    hide Ranked, RankLe, Sum, Split.Rest, Distinct, Sorted;
    var ranked := Ranked(d, keys);
    RankedFacts(d, keys);
    RankedOnce(d, keys);
    RankedBefore(d, ranked, p);
    var head := ranked[..p + 1];
    SetSize(head);
    ListingFacts(d.weights, ranked);
    assert Ahead(d, ranked[p]) == set x | x in head;
  }

  lemma {:induction false} RankedBefore(d: Split, ranked: seq<string>, p: nat)
    requires d.total > 0 && Sorted(ranked, RankLe(d)) && p < |ranked|
    requires forall i, j :: 0 <= i < j < |ranked| ==> ranked[i] != ranked[j]
    ensures forall b :: b in ranked ==> (RankLe(d)(b, ranked[p]) <==> b in ranked[..p + 1])
  {
    hide RankLe;
    RankIsTotalOrder(d);
    forall b | b in ranked ensures RankLe(d)(b, ranked[p]) <==> b in ranked[..p + 1] {
      var q :| 0 <= q < |ranked| && ranked[q] == b;
      if q <= p {
        assert ranked[..p + 1][q] == b;
        assert RankLe(d)(ranked[p], ranked[p]);
        assert q < p ==> RankLe(d)(ranked[q], ranked[p]);
      } else {
        assert RankLe(d)(ranked[p], ranked[q]);
        assert ranked[q] != ranked[p];
      }
    }
  }

  /** A leftover unit goes to `a` exactly when no more addresses are ranked at or before it than there are leftover units. */
  lemma {:induction false} WinsIff(d: Split, keys: seq<string>, a: string)
    requires Ready(d, keys) && Lists(d.weights, keys) && a in keys
    ensures a in Winners(d, keys) <==> |Ahead(d, a)| <= Leftover(d, keys)
  {
    hide Ranked, Sum, Leftover, Distinct, Split.Rest, Ahead, Lists;
    var ranked, l := Ranked(d, keys), Leftover(d, keys);
    RankedFacts(d, keys);
    RankedOnce(d, keys);
    LeftoverBounds(d, keys);
    assert a in multiset(ranked);
    var p :| 0 <= p < |ranked| && ranked[p] == a;
    AheadByPosition(d, keys, p);
    assert p < l ==> ranked[..l][p] == a;
  }

  lemma {:induction false} QuotaZeroIff(d: Split, a: string)
    requires d.total > 0
    ensures d.Quota(a) == 0 <==> d.Exact(a) < d.total
  {
    hide *;
    QuotaRest(d, a);
    ZeroQuotient(d.Quota(a), d.total, d.Rest(a), d.Exact(a));
  }

  lemma {:induction false} ZeroQuotient(q: nat, t: int, r: int, x: int)
    requires x == q * t + r && 0 <= r < t
    ensures q == 0 <==> x < t
  {
    if q > 0 {
      MulMono(1, q, t);
    }
  }

  /** An address owed less than a whole unit that the leftover units do not reach. */
  ghost predicate Starved(weights: Weights, reward: nat, a: string)
    requires TotalWork(weights) > 0
  {
    && a in weights
    && reward * weights[a] < TotalWork(weights)
    && |Ahead(SplitOf(weights, reward), a)| > Leftover(SplitOf(weights, reward), AddressList(weights))
  }

  lemma {:induction false} NothingDueIff(c: Codec, weights: Weights, reward: nat, a: string)
    requires Payable(c, weights, reward) && a in weights
    ensures Due(c, weights, reward)(a) <= 0 <==> Starved(weights, reward, a)
  {
    hide Payable, TotalWork, Sum, AddressList, Ready, Winners, Split.Quota, Leftover, Ahead;
    var d, keys := SplitOf(weights, reward), AddressList(weights);
    PayableReady(c, weights, reward, keys);
    ReadyFacts(d, keys);
    DueIsShare(c, weights, reward);
    ListingFacts(weights, keys);
    WinsIff(d, keys, a);
    QuotaZeroIff(d, a);
  }

  /** `b` comes no later than `a` when leftover units are handed out: its remainder is larger, or equal with no greater address. */
  ghost predicate NoLater(weights: Weights, reward: int, total: int, b: string, a: string)
    requires total > 0 && a in weights && b in weights
  {
    var x, y := reward * weights[b] % total, reward * weights[a] % total;
    x > y || (x == y && LexLe(b, a))
  }

  lemma {:induction false} AheadMeans(weights: Weights, reward: nat, a: string)
    requires TotalWork(weights) > 0 && a in weights
    ensures Ahead(SplitOf(weights, reward), a) == set b | b in weights && NoLater(weights, reward, TotalWork(weights), b, a)
  {
    hide TotalWork, LexLe;
    var d := SplitOf(weights, reward);
    SplitParts(d, a);
    forall b | b in weights ensures RankLe(d)(b, a) <==> NoLater(weights, reward, TotalWork(weights), b, a) {
      SplitParts(d, b);
    }
  }

  /** To the unit: address number `i` is paid its share rounded down, and one unit more exactly when no more addresses come no
      later than it than there are leftover units, which are the remainders' sum over the total work. */
  lemma {:induction false} PaidExactly(c: Codec, weights: Weights, reward: int, i: nat)
    requires PayoutList(c, weights, reward).Some? && i < |weights|
    ensures |PayoutList(c, weights, reward).value| == |AddressList(weights)| == |weights| && AddressList(weights)[i] in weights
    ensures reward > 0 && TotalWork(weights) > 0
    ensures var total, a, leftover := TotalWork(weights), AddressList(weights)[i], Leftover(SplitOf(weights, reward), AddressList(weights));
            && PayoutList(c, weights, reward).value[i]
               == TxOut(reward * weights[a] / total
                        + (if |set b | b in weights && NoLater(weights, reward, total, b, a)| <= leftover then 1 else 0), PkhOf(c, a))
            && leftover * total == Sum(AddressList(weights), RestFn(SplitOf(weights, reward)))
  {
    hide Payable, TotalWork, Sum, AddressList, Ready, Winners, Leftover, Ahead, NoLater;
    PayableParts(c, weights, reward);
    var d, keys := SplitOf(weights, reward), AddressList(weights);
    PayableReady(c, weights, reward, keys);
    ReadyFacts(d, keys);
    DueIsShare(c, weights, reward);
    ListingFacts(weights, keys);
    var a := keys[i];
    WinsIff(d, keys, a);
    AheadMeans(weights, reward, a);
    SplitParts(d, a);
    RestsMakeLeftover(d, keys);
  }

  /** What an allocation presupposes: a reward in range that covers one unit per address, at most 256 addresses, each valid with
      positive work, and no work of more than 268 bits, one by one or in total. */
  lemma {:induction false} PayableMeans(c: Codec, weights: Weights, reward: int)
    requires PayoutList(c, weights, reward).Some?
    ensures |weights| <= reward <= 21_000_000 * 100_000_000 && 0 < |weights| <= 256
    ensures forall a :: a in weights ==> ValidAddress(c, a) && 0 < weights[a] < Pow2(268)
    ensures 0 < TotalWork(weights) < Pow2(268)
  {
    hide Due, TotalWork, BitLen, ValidAddress, Pow2;
    BitLenBelow(TotalWork(weights), 268);
    forall a | a in weights ensures ValidAddress(c, a) && 0 < weights[a] < Pow2(268) {
      assert ValidWeight(c, weights, a);
      BitLenBelow(weights[a], 268);
    }
  }

  lemma {:induction false} PayableParts(c: Codec, weights: Weights, reward: int)
    requires PayoutList(c, weights, reward).Some?
    ensures Payable(c, weights, reward) && reward > 0 && TotalWork(weights) > 0
  {
    hide Due, TotalWork, ValidWeight, BitLen;
  }

  /** On valid weights the allocation succeeds exactly when nobody is starved: every address owed less than one whole unit
      has at most as many addresses ranked at or before it as there are leftover units. */
  lemma {:induction false} PayoutsIff(c: Codec, weights: Weights, reward: int)
    requires Payable(c, weights, reward)
    ensures PayoutList(c, weights, reward).Some? <==> forall a :: a in weights ==> !Starved(weights, reward, a)
  {
    hide Due, TotalWork, Starved, ValidWeight, BitLen, Map;
    forall a | a in weights ensures Due(c, weights, reward)(a) <= 0 <==> Starved(weights, reward, a) {
      NothingDueIff(c, weights, reward, a);
    }
  }

  /** In particular nobody is starved when every address is owed at least one whole unit. */
  lemma {:induction false} WholeUnitsSuffice(c: Codec, weights: Weights, reward: int)
    requires Payable(c, weights, reward)
    requires forall a :: a in weights ==> reward * weights[a] >= TotalWork(weights)
    ensures PayoutList(c, weights, reward).Some?
  {
    hide TotalWork, ValidWeight, BitLen, PayoutList, Ahead, Leftover;
    PayoutsIff(c, weights, reward);
  }

  /** A reward that covers one unit per address does not guarantee success: with work 1 and 9 and a reward of 2
      the larger remainder takes the leftover unit and the smaller address is left with nothing. */
  lemma {:induction false} StarvedAddress(c: Codec, a: string, b: string)
    requires ValidAddress(c, a) && ValidAddress(c, b) && a != b
    ensures PayoutList(c, map[a := 1, b := 9], 2).None?
  {
    hide Sum, Split.Quota, Distinct, AddressList, TotalWork, Ready, PayoutList, Ahead, Leftover, Payable;
    var weights: Weights := map[a := 1, b := 9];
    if Payable(c, weights, 2) {
      var keys, d := [a, b], SplitOf(weights, 2);
      assert Lists(weights, keys);
      TotalOfListing(weights, keys);
      PairSum(a, b, WorkFn(weights));
      PayableReady(c, weights, 2, keys);
      PayableReady(c, weights, 2, AddressList(weights));
      AnyListing(d, keys, AddressList(weights));
      PairLeftover(d, a, b);
      PairAhead(d, a, b);
      assert Starved(weights, 2, a);
      PayoutsIff(c, weights, 2);
    } else {
      NotPayable(c, weights, 2);
    }
  }

  lemma {:induction false} NotPayable(c: Codec, weights: Weights, reward: int)
    requires !Payable(c, weights, reward)
    ensures PayoutList(c, weights, reward).None?
  {
    hide Payable;
  }

  lemma {:induction false} PairSum(a: string, b: string, f: string -> int)
    ensures Sum([a, b], f) == f(a) + f(b)
  {
    assert [a, b][1..] == [b] && [b][1..] == [];
    assert Sum([b], f) == f(b) + Sum([], f);
  }

  lemma {:induction false} PairLeftover(d: Split, a: string, b: string)
    requires d.total == 10 && d.reward == 2 && d.Work(a) == 1 && d.Work(b) == 9
    ensures Leftover(d, [a, b]) == 1
  {
    hide Sum;
    PairSum(a, b, QuotaFn(d));
    assert d.Quota(a) == 0 && d.Quota(b) == 1;
  }

  lemma {:induction false} PairAhead(d: Split, a: string, b: string)
    requires d.total == 10 && d.reward == 2 && d.weights == map[a := 1, b := 9] && a != b
    ensures |Ahead(d, a)| == 2
  {
    hide LexLe;
    LexTotal(a, a);
    assert d.Rest(a) == 2 && d.Rest(b) == 8;
    assert Ahead(d, a) == {a, b};
  }

  // ---- the allocation as the code computes it ----

  datatype Allocation = Allocation(address: string, pkh: Pkh, value: int, remainder: nat)

  /** Checks every weight and adds them up, visiting the map in an arbitrary order. */
  method CheckWeights(c: Codec, weights: Weights) returns (total: Option<nat>)
    ensures total.Some? <==> forall a :: a in weights ==> ValidWeight(c, weights, a)
    ensures total.Some? ==> total.value == TotalWork(weights)
  {
    hide Sum, TotalWork, ValidWeight;
    var sum: nat, remaining := 0, weights.Keys;
    ghost var done: seq<string> := [];
    assert Sum(done, WorkFn(weights)) == 0 by { SumEmpty(WorkFn(weights)); }
    while remaining != {}
      invariant remaining <= weights.Keys
      invariant multiset(done) + multiset(remaining) == multiset(weights.Keys)
      invariant forall a :: a in weights && a !in remaining ==> ValidWeight(c, weights, a)
      invariant sum == Sum(done, WorkFn(weights))
      decreases |remaining|
    {
      var a :| a in remaining;
      if !ValidWeight(c, weights, a) {
        return None;
      }
      SumSnoc(done, a, WorkFn(weights));
      assert multiset(done + [a]) == multiset(done) + multiset{a};
      assert multiset(remaining) == multiset(remaining - {a}) + multiset{a};
      done := done + [a];
      sum := sum + weights[a];
      remaining := remaining - {a};
    }
    TotalOfListing(weights, done);
    return Some(sum);
  }

  lemma {:induction false} SumEmpty(f: string -> int)
    ensures Sum([], f) == 0
  {
  }

  lemma {:induction false} SumSnoc(keys: seq<string>, a: string, f: string -> int)
    ensures Sum(keys + [a], f) == Sum(keys, f) + f(a)
  {
    SumConcat(keys, [a], f);
    assert [a][1..] == [];
    assert Sum([a], f) == f(a);
  }

  /** The record of an address before leftover units are handed out. */
  function BaseFn(c: Codec, d: Split): string -> Allocation
    requires d.total > 0
  {
    (a: string) => Allocation(a, PkhOf(c, a), d.Quota(a), d.Rest(a))
  }

  ghost function FinalFn(c: Codec, d: Split, keys: seq<string>): string -> Allocation
    requires Ready(d, keys)
  {
    (a: string) => Allocation(a, PkhOf(c, a), Share(d, keys, a), d.Rest(a))
  }

  lemma {:induction false} MapSnoc<A, B>(s: seq<A>, x: A, f: A -> B)
    ensures Map(s + [x], f) == Map(s, f) + [f(x)]
  {
    var l, r := Map(s + [x], f), Map(s, f) + [f(x)];
    assert forall i :: 0 <= i < |l| ==> l[i] == r[i];
  }

  /** Rounds every share down, visiting the map in an arbitrary order again. */
  method Allocate(c: Codec, d: Split) returns (allocations: seq<Allocation>, granted: int, ghost done: seq<string>)
    requires d.total > 0
    ensures Lists(d.weights, done)
    ensures allocations == Map(done, BaseFn(c, d)) && granted == Sum(done, QuotaFn(d))
  {
    hide Sum, Map, Split.Quota, Split.Rest, Split.Exact;
    var remaining := d.weights.Keys;
    allocations, granted, done := [], 0, [];
    assert Sum(done, QuotaFn(d)) == 0 by { SumEmpty(QuotaFn(d)); }
    assert Map(done, BaseFn(c, d)) == [];
    while remaining != {}
      invariant remaining <= d.weights.Keys
      invariant multiset(done) + multiset(remaining) == multiset(d.weights.Keys)
      invariant allocations == Map(done, BaseFn(c, d)) && granted == Sum(done, QuotaFn(d))
      decreases |remaining|
    {
      var a :| a in remaining;
      SplitParts(d, a);
      var quotient, remainder := d.Exact(a) / d.total, d.Exact(a) % d.total;
      allocations := allocations + [Allocation(a, PkhOf(c, a), quotient, remainder)];
      granted := granted + quotient;
      SumSnoc(done, a, QuotaFn(d));
      MapSnoc(done, a, BaseFn(c, d));
      assert multiset(done + [a]) == multiset(done) + multiset{a};
      assert multiset(remaining) == multiset(remaining - {a}) + multiset{a};
      done := done + [a];
      remaining := remaining - {a};
    }
  }

  predicate ByRemainder(x: Allocation, y: Allocation) {
    x.remainder > y.remainder || (x.remainder == y.remainder && LexLe(x.address, y.address))
  }

  predicate ByAddress(x: Allocation, y: Allocation) {
    LexLe(x.address, y.address)
  }

  /** The first `leftover` records receive one more unit. */
  method HandOut(given: seq<Allocation>, leftover: nat) returns (allocations: seq<Allocation>)
    requires leftover <= |given|
    ensures |allocations| == |given|
    ensures forall i :: 0 <= i < |given| ==>
      allocations[i] == given[i].(value := given[i].value + (if i < leftover then 1 else 0))
  {
    allocations := given;
    var index := 0;
    while index < leftover
      invariant 0 <= index <= leftover && |allocations| == |given|
      invariant forall i :: 0 <= i < |given| ==>
        allocations[i] == given[i].(value := given[i].value + (if i < index then 1 else 0))
    {
      allocations := allocations[index := allocations[index].(value := allocations[index].value + 1)];
      index := index + 1;
    }
  }

  /** Position in the ranking decides who wins a leftover unit. */
  lemma {:induction false} HandedOut(c: Codec, d: Split, keys: seq<string>, given: seq<Allocation>, allocations: seq<Allocation>)
    requires Ready(d, keys) && given == Map(Ranked(d, keys), BaseFn(c, d)) && |allocations| == |given|
    requires forall i :: 0 <= i < |given| ==>
      allocations[i] == given[i].(value := given[i].value + (if i < Leftover(d, keys) then 1 else 0))
    ensures allocations == Map(Ranked(d, keys), FinalFn(c, d, keys))
  {
    hide Map, Ranked, Split.Quota, Split.Rest, Leftover, Sum, Distinct, PkhOf;
    var ranked, l := Ranked(d, keys), Leftover(d, keys);
    RankedFacts(d, keys);
    LeftoverBounds(d, keys);
    var head, tail := ranked[..l], ranked[l..];
    assert ranked == head + tail;
    assert multiset(ranked) == multiset(head) + multiset(tail);
    DisjointParts(keys, head, tail);
    forall i | 0 <= i < |ranked| ensures allocations[i] == FinalFn(c, d, keys)(ranked[i]) {
      assert i < l ==> ranked[i] == head[i];
      assert i >= l ==> ranked[i] == tail[i - l];
    }
  }

  /** Emits the outputs, refusing an empty one. */
  method Emit(c: Codec, allocations: seq<Allocation>, reward: nat, ghost keys: seq<string>, ghost due: string -> int)
    returns (res: Option<seq<TxOut>>)
    requires |allocations| == |keys|
    requires forall i :: 0 <= i < |keys| ==> allocations[i].value == due(keys[i]) >= 0 && allocations[i].pkh == PkhOf(c, keys[i])
    requires Sum(keys, due) == reward
    ensures res == if exists i :: 0 <= i < |keys| && due(keys[i]) <= 0 then None else Some(Map(keys, OutputFn(c, due)))
  {
    hide Sum, Map;
    var outputs: seq<TxOut>, total, i := [], 0, 0;
    assert Map(keys[..0], OutputFn(c, due)) == [];
    assert Sum(keys[..0], due) == 0 by { assert keys[..0] == []; SumEmpty(due); }
    while i < |allocations|
      invariant 0 <= i <= |keys|
      invariant forall j :: 0 <= j < i ==> due(keys[j]) > 0
      invariant outputs == Map(keys[..i], OutputFn(c, due)) && total == Sum(keys[..i], due)
    {
      var value := allocations[i].value;
      assert keys[..i + 1] == keys[..i] + [keys[i]];
      SumSnoc(keys[..i], keys[i], due);
      MapSnoc(keys[..i], keys[i], OutputFn(c, due));
      PrefixSumLe(keys, i + 1, due);
      if value <= 0 || total > reward - value {
        return None;
      }
      outputs := outputs + [TxOut(value, allocations[i].pkh)];
      total := total + value;
      i := i + 1;
    }
    assert keys[..i] == keys;
    return Some(outputs);
  }

  lemma {:induction false} PrefixSumLe(keys: seq<string>, n: nat, due: string -> int)
    requires n <= |keys| && (forall i :: 0 <= i < |keys| ==> due(keys[i]) >= 0)
    ensures Sum(keys[..n], due) <= Sum(keys, due)
  {
    assert keys == keys[..n] + keys[n..];
    SumConcat(keys[..n], keys[n..], due);
    SumNonneg(keys[n..], due);
  }

  lemma {:induction false} SumNonneg(keys: seq<string>, due: string -> int)
    requires forall i :: 0 <= i < |keys| ==> due(keys[i]) >= 0
    ensures Sum(keys, due) >= 0
  {
    if keys != [] {
      SumNonneg(keys[1..], due);
    }
  }

  /** Shares, leftovers and the ranking do not depend on which listing they are computed from. */
  lemma {:induction false} AnyListing(d: Split, a: seq<string>, b: seq<string>)
    requires Ready(d, a) && Ready(d, b) && multiset(a) == multiset(b)
    ensures Leftover(d, a) == Leftover(d, b) && Ranked(d, a) == Ranked(d, b)
    ensures forall x :: Share(d, a, x) == Share(d, b, x)
  {
    hide Sum, Split.Quota, Split.Rest, Distinct, RankLe;
    SumAnyOrder(a, b, QuotaFn(d));
    RankedFacts(d, a);
    RankedFacts(d, b);
    RankIsTotalOrder(d);
    SortedUnique(Ranked(d, a), Ranked(d, b), RankLe(d));
    assert Winners(d, a) == Winners(d, b);
  }

  /** The whole computation. It equals a function of the weights and the reward, so map order cannot show. */
  method OutputsFromWork(c: Codec, weights: Weights, reward: int) returns (res: Option<seq<TxOut>>)
    ensures res == PayoutList(c, weights, reward)
  {
    hide Sum, Map, Sort, Share, ShareFn, Due, Winners, AddressList, TotalWork, Ready, Leftover, Ranked, ValidWeight, BitLen;
    if reward <= 0 || !MoneyRange(reward) || |weights| == 0 || |weights| > 256 || reward < |weights| {
      return None;
    }
    var total := CheckWeights(c, weights);
    if total.None? || total.value == 0 || BitLen(total.value) > MAX_WORK_BITS {
      return None;
    }
    var d := Split(weights, reward, total.value);
    assert d == SplitOf(weights, reward) && Payable(c, weights, reward);
    var allocations, granted, done := Allocate(c, d);
    PayableReady(c, weights, reward, done);
    PayableReady(c, weights, reward, AddressList(weights));
    ReadyFacts(d, done);
    AnyListing(d, done, AddressList(weights));
    LeftoverBounds(d, done);
    var leftover := reward - granted;
    QuotaPlusLeftover(d, done);
    RankedRecords(c, d, done);
    allocations := Sort(allocations, ByRemainder);
    allocations := HandOut(allocations, leftover);
    HandedOut(c, d, done, Map(Ranked(d, done), BaseFn(c, d)), allocations);
    SortedRecords(c, d, done);
    allocations := Sort(allocations, ByAddress);
    ghost var due := Due(c, weights, reward);
    FinalRecords(c, d, done, AddressList(weights), allocations);
    DueSum(c, weights, reward);
    DueIsShare(c, weights, reward);
    ListingFacts(weights, AddressList(weights));
    res := Emit(c, allocations, reward, AddressList(weights), due);
  }

  lemma {:induction false} RankedRecords(c: Codec, d: Split, done: seq<string>)
    requires d.total > 0
    ensures Sort(Map(done, BaseFn(c, d)), ByRemainder) == Map(Ranked(d, done), BaseFn(c, d))
  {
    hide Map, Sort, Split.Rest, Split.Quota, PkhOf, LexLe;
    SortMapped(done, BaseFn(c, d), RankLe(d), ByRemainder);
  }

  lemma {:induction false} SortedRecords(c: Codec, d: Split, done: seq<string>)
    requires Ready(d, done) && Lists(d.weights, done)
    ensures Sort(Map(Ranked(d, done), FinalFn(c, d, done)), ByAddress) == Map(AddressList(d.weights), FinalFn(c, d, done))
  {
    hide Map, Sort, Sum, Split.Rest, Split.Quota, PkhOf, LexLe, Share, Ranked, Distinct, AddressList;
    RankedFacts(d, done);
    SortedListing(d.weights, Ranked(d, done));
    SortMapped(Ranked(d, done), FinalFn(c, d, done), LexLe, ByAddress);
  }

  lemma {:induction false} FinalRecords(c: Codec, d: Split, done: seq<string>, keys: seq<string>, allocations: seq<Allocation>)
    requires Ready(d, done) && allocations == Map(keys, FinalFn(c, d, done))
    ensures |allocations| == |keys|
    ensures forall i :: 0 <= i < |keys| ==>
      allocations[i].value == Share(d, done, keys[i]) >= 0 && allocations[i].pkh == PkhOf(c, keys[i])
  {
    hide Map, Ready, Share;
  }

  lemma {:induction false} DueIsShare(c: Codec, weights: Weights, reward: nat)
    requires Payable(c, weights, reward)
    ensures Ready(SplitOf(weights, reward), AddressList(weights))
    ensures forall a :: Due(c, weights, reward)(a) == Share(SplitOf(weights, reward), AddressList(weights), a)
  {
    hide Payable, Ready, Share, AddressList, TotalWork;
    PayableReady(c, weights, reward, AddressList(weights));
  }

  lemma {:induction false} ReadyFacts(d: Split, keys: seq<string>)
    requires Ready(d, keys)
    ensures d.total > 0 && |keys| > 0 && d.total == Sum(keys, WorkFn(d.weights))
  {
  }
}
