/** Payout weights of a share window (pool/pplns.go, pool/pplns_coordinator.go). */
module WindowWeights {
  import opened Types
  import opened Bits
  import opened Money
  import opened Sorting
  import opened Order
  import opened Compact
  import opened Difficulty
  import opened Apportion
  import opened Payouts
  import opened ShareWindow

  function ShareWork(s: Share): nat {
    WorkFromTarget(s.target)
  }

  function Bumped(weights: Weights, a: string, w: nat): Weights {
    weights[a := WorkOf(weights, a) + w]
  }

  /** Work done for each address. */
  function WorkBy(shares: seq<Share>): Weights {
    if shares == [] then map[]
    else Bumped(WorkBy(shares[..|shares| - 1]), shares[|shares| - 1].address, ShareWork(shares[|shares| - 1]))
  }

  /** Number of shares of each address. */
  function CountBy(shares: seq<Share>): map<string, nat> {
    if shares == [] then map[]
    else Bumped(CountBy(shares[..|shares| - 1]), shares[|shares| - 1].address, 1)
  }

  function WorkSum(shares: seq<Share>): nat {
    if shares == [] then 0 else WorkSum(shares[..|shares| - 1]) + ShareWork(shares[|shares| - 1])
  }

  lemma {:induction false} MapKeys(shares: seq<Share>)
    ensures WorkBy(shares).Keys == CountBy(shares).Keys == Addresses(shares)
  {
    hide ShareWork;
    if shares != [] {
      var init := shares[..|shares| - 1];
      MapKeys(init);
      PrefixSnoc(shares, |shares| - 1);
      assert shares[..|shares|] == shares;
    }
  }

  /** The work of the shares submitted for one address, each worth 2^256 over one more than its target. */
  ghost function WorkFor(shares: seq<Share>, a: string): nat {
    if shares == [] then 0
    else (if shares[0].address == a then WorkFromTarget(shares[0].target) else 0) + WorkFor(shares[1..], a)
  }

  lemma {:induction false} WorkForSnoc(shares: seq<Share>, s: Share, a: string)
    ensures WorkFor(shares + [s], a) == WorkFor(shares, a) + (if s.address == a then WorkFromTarget(s.target) else 0)
  {
    hide WorkFromTarget;
    if shares == [] {
      assert shares + [s] == [s] && [s][1..] == [];
    } else {
      WorkForSnoc(shares[1..], s, a);
      assert (shares + [s])[1..] == shares[1..] + [s];
    }
  }

  lemma {:induction false} WorkOwn(shares: seq<Share>, a: string)
    ensures WorkOf(WorkBy(shares), a) == WorkFor(shares, a)
  {
    hide WorkFromTarget, WorkFor;
    if shares == [] {
      NoWorkFor(a);
    } else {
      var init, last := shares[..|shares| - 1], shares[|shares| - 1];
      WorkOwn(init, a);
      assert shares == init + [last];
      WorkForSnoc(init, last, a);
    }
  }

  lemma {:induction false} NoWorkFor(a: string)
    ensures WorkFor([], a) == 0
  {
  }

  ghost function SharesOf(shares: seq<Share>, a: string): set<int> {
    set i | 0 <= i < |shares| && shares[i].address == a
  }

  lemma {:induction false} SharesOfLast(shares: seq<Share>, s: Share, a: string)
    ensures SharesOf(shares + [s], a) == if s.address == a then SharesOf(shares, a) + {|shares|} else SharesOf(shares, a)
    ensures |shares| !in SharesOf(shares, a)
  {
    var all := shares + [s];
    forall i ensures i in SharesOf(all, a) <==> i in SharesOf(shares, a) || (i == |shares| && s.address == a) {
      assert 0 <= i < |shares| ==> all[i] == shares[i];
    }
  }

  lemma {:induction false} SharesOfSnoc(shares: seq<Share>, s: Share, a: string)
    ensures |SharesOf(shares + [s], a)| == |SharesOf(shares, a)| + (if s.address == a then 1 else 0)
  {
    hide SharesOf;
    SharesOfLast(shares, s, a);
  }

  lemma {:induction false} CountOwn(shares: seq<Share>, a: string)
    ensures WorkOf(CountBy(shares), a) == |SharesOf(shares, a)|
  {
    if shares == [] {
      assert SharesOf(shares, a) == {};
    } else {
      var init, last := shares[..|shares| - 1], shares[|shares| - 1];
      CountOwn(init, a);
      hide SharesOf;
      assert shares == init + [last];
      SharesOfSnoc(init, last, a);
    }
  }

  /** Each address is credited with the work and the number of exactly its own shares. */
  lemma {:induction false} CreditedOwnShares(shares: seq<Share>, a: string)
    ensures a in WorkBy(shares) <==> exists i :: 0 <= i < |shares| && shares[i].address == a
    ensures WorkOf(WorkBy(shares), a) == WorkFor(shares, a)
    ensures WorkOf(CountBy(shares), a) == |set i | 0 <= i < |shares| && shares[i].address == a|
  {
    hide WorkBy, CountBy, WorkFor, WorkOf;
    MapKeys(shares);
    WorkOwn(shares, a);
    CountOwn(shares, a);
  }

  // ---- conservation of work ----

  lemma {:induction false} SumAgree(keys: seq<string>, f: string -> int, g: string -> int)
    requires forall i :: 0 <= i < |keys| ==> f(keys[i]) == g(keys[i])
    ensures Sum(keys, f) == Sum(keys, g)
  {
    if keys != [] {
      SumAgree(keys[1..], f, g);
    }
  }

  lemma {:induction false} SumPoint(keys: seq<string>, a: string, f: string -> int, g: string -> int, w: int)
    requires multiset(keys)[a] == 1 && g(a) == f(a) + w
    requires forall x :: x != a ==> f(x) == g(x)
    ensures Sum(keys, g) == Sum(keys, f) + w
  {
    assert keys != [];
    var rest := keys[1..];
    assert keys == [keys[0]] + rest;
    assert multiset(keys) == multiset{keys[0]} + multiset(rest);
    if keys[0] == a {
      assert multiset(rest)[a] == 0;
      forall i | 0 <= i < |rest| ensures f(rest[i]) == g(rest[i]) {
        assert rest[i] in multiset(rest);
      }
      SumAgree(rest, f, g);
    } else {
      SumPoint(rest, a, f, g, w);
    }
  }

  lemma {:induction false} BumpKnown(weights: Weights, a: string, w: nat)
    requires a in weights
    ensures TotalWork(Bumped(weights, a, w)) == TotalWork(weights) + w
  {
    hide Sum, AddressList, TotalWork;
    var after := Bumped(weights, a, w);
    var keys := AddressList(weights);
    TotalOfListing(weights, keys);
    assert after.Keys == weights.Keys;
    assert multiset(keys)[a] == 1;
    SumPoint(keys, a, WorkFn(weights), WorkFn(after), w);
    TotalOfListing(after, keys);
  }

  lemma {:induction false} BumpedListing(weights: Weights, a: string, w: nat)
    requires a !in weights
    ensures Lists(Bumped(weights, a, w), AddressList(weights) + [a])
  {
    hide AddressList;
    var after, keys := Bumped(weights, a, w), AddressList(weights);
    assert after.Keys == weights.Keys + {a};
    assert multiset(after.Keys) == multiset(weights.Keys) + multiset{a};
    assert multiset(keys + [a]) == multiset(keys) + multiset{a};
  }

  lemma {:induction false} BumpNew(weights: Weights, a: string, w: nat)
    requires a !in weights
    ensures TotalWork(Bumped(weights, a, w)) == TotalWork(weights) + w
  {
    hide Sum, AddressList, TotalWork;
    var after := Bumped(weights, a, w);
    var keys := AddressList(weights);
    TotalOfListing(weights, keys);
    BumpedListing(weights, a, w);
    TotalOfListing(after, keys + [a]);
    hide Lists;
    ListingFacts(weights, keys);
    SumAgree(keys, WorkFn(weights), WorkFn(after));
    SumSnoc(keys, a, WorkFn(after));
  }

  lemma {:induction false} BumpTotal(weights: Weights, a: string, w: nat)
    ensures TotalWork(Bumped(weights, a, w)) == TotalWork(weights) + w
  {
    hide TotalWork, Bumped;
    if a in weights {
      BumpKnown(weights, a, w);
    } else {
      BumpNew(weights, a, w);
    }
  }

  /** Grouping by address neither creates nor loses work. */
  lemma {:induction false} WorkConserved(shares: seq<Share>)
    ensures TotalWork(WorkBy(shares)) == WorkSum(shares)
  {
    hide TotalWork, Sum, ShareWork, Bumped;
    if shares == [] {
      assert Lists(map[], []);
      TotalOfListing(map[], []);
      SumEmpty(WorkFn(map[]));
    } else {
      var init, last := shares[..|shares| - 1], shares[|shares| - 1];
      WorkConserved(init);
      BumpTotal(WorkBy(init), last.address, ShareWork(last));
    }
  }

  // ---- the 268-bit bound ----

  lemma {:induction false} ShareWorkBounds(target: nat)
    requires 1 <= target < Pow2(256)
    ensures 1 <= WorkFromTarget(target) <= Pow2(255)
  {
    hide WorkFromTarget, Pow2;
    WorkPositive(target);
    WorkAntitone(1, target);
    WorkOfOne();
  }

  lemma {:induction false} WorkOfOne()
    ensures WorkFromTarget(1) == Pow2(255)
  {
    DivUnique(Pow2(256), 2, Pow2(255));
  }

  lemma {:induction false} NetworkMaxBelow(network: string)
    ensures NetworkMaxTarget(network) < Pow2(256)
  {
    hide MaxTarget, Pow2, Pow256;
    CanonicalNetworksUsable([]);
    Pow256IsPow2(32);
  }

  ghost predicate TargetsIn(shares: seq<Share>) {
    forall i :: 0 <= i < |shares| ==> 1 <= shares[i].target < Pow2(256)
  }

  lemma {:induction false} ValidTargets(c: Codec, shares: seq<Share>, network: string)
    requires SharesValid(c, shares, NetworkMaxTarget(network))
    ensures TargetsIn(shares)
    ensures forall i :: 0 <= i < |shares| ==> ValidAddress(c, shares[i].address)
  {
    hide Pow2, NetworkMaxTarget, ValidAddress, ValidLowerHex;
    NetworkMaxBelow(network);
    forall i | 0 <= i < |shares| ensures 1 <= shares[i].target < Pow2(256) && ValidAddress(c, shares[i].address) {
      assert ValidShare(c, shares[i], true);
    }
  }

  lemma {:induction false} WorkSumBound(shares: seq<Share>)
    requires TargetsIn(shares)
    ensures WorkSum(shares) <= |shares| * Pow2(255)
  {
    hide Pow2, WorkFromTarget;
    if shares != [] {
      WorkSumBound(shares[..|shares| - 1]);
      ShareWorkBounds(shares[|shares| - 1].target);
      MulSucc(|shares| - 1, Pow2(255));
    }
  }

  lemma {:induction false} EachWeight(shares: seq<Share>, a: string)
    requires TargetsIn(shares) && a in WorkBy(shares)
    ensures 0 < WorkBy(shares)[a] <= WorkSum(shares)
  {
    hide Pow2, WorkFromTarget;
    var init, last := shares[..|shares| - 1], shares[|shares| - 1];
    ShareWorkBounds(last.target);
    if a in WorkBy(init) {
      EachWeight(init, a);
    }
  }

  lemma {:induction false} FitsIn268(n: nat, x: nat)
    requires n <= 4096 && x <= n * Pow2(255)
    ensures BitLen(x) <= MAX_WORK_BITS
  {
    hide Pow2, BitLen;
    Pow2Values();
    Pow2Add(4, 8);
    Pow2Add(12, 255);
    MulMono(n, 4096, Pow2(255));
    Pow2Mono(267, 268);
    BitLenBelow(x, 268);
  }

  /** The total work of any valid window, and the work of each address in it, fits in 268 bits. */
  lemma {:induction false} WindowWorkFits(c: Codec, w: Window)
    requires ValidState(c, w, w.network, w.windowShares, w.maxAddresses) && w.windowShares <= 4096
    ensures BitLen(TotalWork(WorkBy(w.shares))) <= MAX_WORK_BITS
    ensures forall a :: a in WorkBy(w.shares) ==> ValidWeight(c, WorkBy(w.shares), a)
    ensures w.shares != [] ==> TotalWork(WorkBy(w.shares)) > 0
  {
    hide TotalWork, BitLen, Pow2, WorkBy, WorkSum, SharesValid, Contiguous, DistinctKeys, ValidAddress, NetworkMaxTarget;
    var shares := w.shares;
    WorkConserved(shares);
    ValidTargets(c, shares, w.network);
    WorkSumBound(shares);
    FitsIn268(|shares|, WorkSum(shares));
    MapKeys(shares);
    forall a | a in WorkBy(shares) ensures ValidWeight(c, WorkBy(shares), a) {
      EachWeight(shares, a);
      FitsIn268(|shares|, WorkBy(shares)[a]);
      var i :| 0 <= i < |shares| && shares[i].address == a;
    }
    if shares != [] {
      assert shares[0].address in Addresses(shares);
      EachWeight(shares, shares[0].address);
    }
  }

  /** So on a valid window the only input check of the allocation that can fail is the reward itself. */
  lemma {:induction false} WindowPayableIff(c: Codec, w: Window, reward: int)
    requires ValidState(c, w, w.network, w.windowShares, w.maxAddresses)
    requires w.windowShares <= 4096 && w.maxAddresses <= 256 && w.shares != []
    ensures Payable(c, WorkBy(w.shares), reward) <==> |Addresses(w.shares)| <= reward <= MAX_MONEY
  {
    hide TotalWork, BitLen, WorkBy, SharesValid, Contiguous, DistinctKeys, ValidWeight, NetworkMaxTarget;
    WindowWorkFits(c, w);
    MapKeys(w.shares);
    assert |WorkBy(w.shares)| == |WorkBy(w.shares).Keys|;
    assert w.shares[0].address in Addresses(w.shares);
  }

  // ---- the two loops over the window ----

  /** `pplnsPayouts` as a function of the window. */
  ghost function WindowPayouts(c: Codec, w: Window, reward: int): Option<seq<TxOut>> {
    if w.shares != [] && (w.network == MAINNET || w.network == REGTEST)
       && ValidState(c, w, w.network, w.windowShares, w.maxAddresses)
    then PayoutList(c, WorkBy(w.shares), reward)
    else None
  }

  method PayoutsOfWindow(c: Codec, w: Window, reward: int) returns (res: Option<seq<TxOut>>)
    ensures res == WindowPayouts(c, w, reward)
  {
    hide TotalWork, ValidState, ValidWeight, Due, ShareWork;
    if reward <= 0 || !MoneyRange(reward) || |w.shares| == 0 {
      return None;
    }
    if w.network != MAINNET && w.network != REGTEST {
      return None;
    }
    var ok := ValidateState(c, w, w.network, w.windowShares, w.maxAddresses);
    if !ok {
      return None;
    }
    var weights: Weights, i := map[], 0;
    while i < |w.shares|
      invariant 0 <= i <= |w.shares| && weights == WorkBy(w.shares[..i])
    {
      var share := w.shares[i];
      if share.address !in weights {
        weights := weights[share.address := 0];
      }
      weights := weights[share.address := weights[share.address] + ShareWork(share)];
      assert w.shares[..i + 1][..i] == w.shares[..i];
      i := i + 1;
    }
    assert w.shares[..i] == w.shares;
    res := OutputsFromWork(c, weights, reward);
  }

  datatype Weight = Weight(address: string, shares: nat, work: nat)

  function WeightFn(shares: seq<Share>): string -> Weight {
    (a: string) => Weight(a, WorkOf(CountBy(shares), a), WorkOf(WorkBy(shares), a))
  }

  /** `pplnsWeights`: one row per address in address order. */
  ghost function WeightRows(shares: seq<Share>): seq<Weight> {
    Map(AddressList(WorkBy(shares)), WeightFn(shares))
  }

  predicate WeightLe(x: Weight, y: Weight) {
    LexLe(x.address, y.address)
  }

  method WeightsOfWindow(w: Window) returns (rows: seq<Weight>)
    ensures rows == WeightRows(w.shares)
  {
    hide ShareWork, Map, Sort, WeightRows, WeightFn, Lists;
    var counts: map<string, nat>, work: Weights, i := map[], map[], 0;
    while i < |w.shares|
      invariant 0 <= i <= |w.shares|
      invariant counts == CountBy(w.shares[..i]) && work == WorkBy(w.shares[..i])
    {
      var share := w.shares[i];
      counts := counts[share.address := (if share.address in counts then counts[share.address] else 0) + 1];
      if share.address !in work {
        work := work[share.address := 0];
      }
      work := work[share.address := work[share.address] + ShareWork(share)];
      assert w.shares[..i + 1][..i] == w.shares[..i];
      i := i + 1;
    }
    assert w.shares[..i] == w.shares;
    MapKeys(w.shares);
    ghost var done;
    rows, done := ListRows(counts, work, w.shares);
    SortRows(w.shares, done);
    rows := Sort(rows, WeightLe);
  }

  lemma {:induction false} SortRows(shares: seq<Share>, done: seq<string>)
    requires Lists(WorkBy(shares), done)
    ensures Sort(Map(done, WeightFn(shares)), WeightLe) == WeightRows(shares)
  {
    hide Map, Sort, AddressList, LexLe, WorkBy, CountBy, Lists;
    SortedListing(WorkBy(shares), done);
    SortMapped(done, WeightFn(shares), LexLe, WeightLe);
  }

  /** Visits the count map in an arbitrary order. */
  method ListRows(counts: map<string, nat>, work: Weights, ghost shares: seq<Share>) returns (rows: seq<Weight>, ghost done: seq<string>)
    requires counts == CountBy(shares) && work == WorkBy(shares) && counts.Keys == work.Keys
    ensures Lists(work, done) && rows == Map(done, WeightFn(shares))
  {
    hide Map, CountBy, WorkBy;
    var remaining := counts.Keys;
    rows, done := [], [];
    assert Map(done, WeightFn(shares)) == [];
    while remaining != {}
      invariant remaining <= counts.Keys
      invariant multiset(done) + multiset(remaining) == multiset(counts.Keys)
      invariant rows == Map(done, WeightFn(shares))
      decreases |remaining|
    {
      var a :| a in remaining;
      rows := rows + [Weight(a, counts[a], work[a])];
      MapSnoc(done, a, WeightFn(shares));
      assert multiset(done + [a]) == multiset(done) + multiset{a};
      assert multiset(remaining) == multiset(remaining - {a}) + multiset{a};
      done := done + [a];
      remaining := remaining - {a};
    }
  }
}
