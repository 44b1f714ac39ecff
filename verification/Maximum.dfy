/** Sending everything the wallet may spend (wallet/maximum.go). */
module Maximum {
  import opened Types
  import opened Money
  import opened Varint
  import opened Wire
  import opened Sorting
  import opened Signing
  import opened Selection
  import opened Payment
  import opened PaymentTheorems

  const MAX_KEYS := 10_000
  const MAX_OUTPOINTS := 10_000
  const MAX_RESTRICTED := 4_096

  function OutputTotal(outputs: seq<Output>): int {
    if outputs == [] then 0 else OutputTotal(outputs[..|outputs| - 1]) + outputs[|outputs| - 1].amount
  }

  ghost predicate DistinctOutputs(outputs: seq<Output>) {
    forall i, j :: 0 <= i < j < |outputs| ==> outputs[i].op != outputs[j].op
  }

  ghost predicate EveryConsistent(env: Env, keys: seq<Key>, outputs: seq<Output>) {
    forall i :: 0 <= i < |outputs| ==> Consistent(env, keys, outputs[i])
  }

  predicate WithinLimits(keys: seq<Key>, outputs: seq<Output>, spendable: int, fee: int, excluded: set<OutPoint>) {
    && 0 <= fee <= MAX_MONEY && |excluded| <= MAX_RESTRICTED
    && 0 < |keys| <= MAX_KEYS && |outputs| <= MAX_OUTPOINTS && MoneyRange(spendable)
  }

  /** What the snapshot must satisfy. */
  ghost predicate SnapshotOk(env: Env, keys: seq<Key>, outputs: seq<Output>, spendable: int) {
    EveryConsistent(env, keys, outputs) && DistinctOutputs(outputs) && OutputTotal(outputs) == spendable
  }

  /** `buildMaximumFromSnapshot`: pay the eligible total less the fee. */
  ghost function MaximumPlan(env: Env, keys: seq<Key>, outputs: seq<Output>, spendable: int, to: Pkh, fee: int, excluded: set<OutPoint>)
    : Result<Prepared, Failure>
  {
    if !WithinLimits(keys, outputs, spendable, fee, excluded) || !SnapshotOk(env, keys, outputs, spendable) then Err(BadSnapshot)
    else
      var total := Amounts(Eligible(outputs, excluded));
      if total <= fee then Err(Insufficient(total, fee))
      else PaymentPlan(env, keys, outputs, to, total - fee, fee, excluded)
  }

  // ---- the scan of the snapshot ----

  lemma {:induction false} OutputTotalSnoc(outputs: seq<Output>, n: nat)
    requires n < |outputs|
    ensures OutputTotal(outputs[..n + 1]) == OutputTotal(outputs[..n]) + outputs[n].amount
  {
    assert outputs[..n + 1][..n] == outputs[..n];
  }

  lemma {:induction false} OutputTotalGrows(env: Env, keys: seq<Key>, outputs: seq<Output>, n: nat)
    requires EveryConsistent(env, keys, outputs) && n <= |outputs|
    ensures 0 <= OutputTotal(outputs[..n]) <= OutputTotal(outputs)
    decreases |outputs|
  {
    if n == |outputs| {
      assert outputs[..n] == outputs;
      if n > 0 {
        OutputTotalGrows(env, keys, outputs[..n - 1], n - 1);
        assert outputs[..n - 1][..n - 1] == outputs[..n - 1];
        assert Consistent(env, keys, outputs[n - 1]);
      }
    } else {
      OutputTotalGrows(env, keys, outputs[..|outputs| - 1], n);
      assert outputs[..|outputs| - 1][..n] == outputs[..n];
      assert Consistent(env, keys, outputs[|outputs| - 1]);
    }
  }

  lemma {:induction false} EligibleAmounts(outputs: seq<Output>, excluded: set<OutPoint>, n: nat)
    requires n < |outputs|
    ensures Amounts(Eligible(outputs[..n + 1], excluded))
         == Amounts(Eligible(outputs[..n], excluded)) + (if outputs[n].op in excluded then 0 else outputs[n].amount)
    ensures |Eligible(outputs[..n + 1], excluded)|
         == |Eligible(outputs[..n], excluded)| + (if outputs[n].op in excluded then 0 else 1)
  {
    hide Eligible;
    EligibleSnoc(outputs, n, excluded);
    if outputs[n].op !in excluded {
      var c := Candidate(outputs[n].op, outputs[n].amount, outputs[n].key);
      AmountsConcat(Eligible(outputs[..n], excluded), [c]);
      assert [c][1..] == [];
      assert Amounts([c]) == c.amount;
    }
  }

  lemma {:induction false} EligibleWithinTotal(env: Env, keys: seq<Key>, outputs: seq<Output>, excluded: set<OutPoint>, n: nat)
    requires EveryConsistent(env, keys, outputs) && n <= |outputs|
    ensures 0 <= Amounts(Eligible(outputs[..n], excluded)) <= OutputTotal(outputs[..n])
  {
    hide Amounts, Eligible;
    if n == 0 {
      NoneEligible(outputs, excluded);
      NoChosen([]);
    } else {
      EligibleWithinTotal(env, keys, outputs, excluded, n - 1);
      EligibleAmounts(outputs, excluded, n - 1);
      OutputTotalSnoc(outputs, n - 1);
      assert Consistent(env, keys, outputs[n - 1]);
    }
  }

  /** One pass over the snapshot with range-checked totals. */
  method ScanSnapshot(env: Env, keys: seq<Key>, outputs: seq<Output>, spendable: int, excluded: set<OutPoint>)
    returns (res: Option<(int, nat)>)
    requires MoneyRange(spendable)
    ensures res.Some? <==> SnapshotOk(env, keys, outputs, spendable)
    ensures res.Some? ==> res.value == (Amounts(Eligible(outputs, excluded)), |Eligible(outputs, excluded)|)
  {
    hide Amounts, Eligible, OutputTotal;
    var seen: set<OutPoint>, total, eligible, count, i := {}, 0, 0, 0, 0;
    NoneEligible(outputs, excluded);
    NoChosen([]);
    NoOutputTotal(outputs);
    while i < |outputs|
      invariant 0 <= i <= |outputs| && seen == SeenOps(outputs, i)
      invariant EveryConsistent(env, keys, outputs[..i]) && DistinctOutputs(outputs[..i])
      invariant total == OutputTotal(outputs[..i]) && 0 <= total <= MAX_MONEY
      invariant 0 <= eligible <= total
      invariant eligible == Amounts(Eligible(outputs[..i], excluded)) && count == |Eligible(outputs[..i], excluded)|
    {
      var o := outputs[i];
      ScanStep(env, keys, outputs, spendable, i);
      if o.op in seen {
        return None;
      }
      seen := seen + {o.op};
      if !Consistent(env, keys, o) {
        return None;
      }
      var next := CheckedAdd(total, o.amount);
      if next.None? {
        return None;
      }
      total := next.value;
      EligibleAmounts(outputs, excluded, i);
      EligibleWithinTotal(env, keys, outputs[..i + 1], excluded, i + 1);
      assert outputs[..i + 1][..i + 1] == outputs[..i + 1];
      if o.op !in excluded {
        var sum := CheckedAdd(eligible, o.amount);
        eligible := sum.value;
        count := count + 1;
      }
      i := i + 1;
    }
    assert outputs[..i] == outputs;
    if total != spendable {
      return None;
    }
    return Some((eligible, count));
  }

  function SeenOps(outputs: seq<Output>, n: nat): set<OutPoint>
    requires n <= |outputs|
  {
    set i | 0 <= i < n :: outputs[i].op
  }

  lemma {:induction false} NoOutputTotal(outputs: seq<Output>)
    ensures OutputTotal(outputs[..0]) == 0
  {
  }

  /** What the next output decides about the whole snapshot. */
  lemma {:induction false} ScanStep(env: Env, keys: seq<Key>, outputs: seq<Output>, spendable: int, n: nat)
    requires n < |outputs| && MoneyRange(spendable)
    requires EveryConsistent(env, keys, outputs[..n]) && DistinctOutputs(outputs[..n])
    ensures SeenOps(outputs, n + 1) == SeenOps(outputs, n) + {outputs[n].op}
    ensures outputs[n].op in SeenOps(outputs, n) ==> !SnapshotOk(env, keys, outputs, spendable)
    ensures !Consistent(env, keys, outputs[n]) ==> !SnapshotOk(env, keys, outputs, spendable)
    ensures OutputTotal(outputs[..n + 1]) == OutputTotal(outputs[..n]) + outputs[n].amount
    ensures SnapshotOk(env, keys, outputs, spendable) ==> OutputTotal(outputs[..n + 1]) <= MAX_MONEY
    ensures Consistent(env, keys, outputs[n]) ==> EveryConsistent(env, keys, outputs[..n + 1])
    ensures outputs[n].op !in SeenOps(outputs, n) ==> DistinctOutputs(outputs[..n + 1])
  {
    hide OutputTotal, Consistent;
    OutputTotalSnoc(outputs, n);
    assert outputs[..n + 1] == outputs[..n] + [outputs[n]];
    if SnapshotOk(env, keys, outputs, spendable) {
      OutputTotalGrows(env, keys, outputs, n + 1);
    }
    if outputs[n].op in SeenOps(outputs, n) {
      var i :| 0 <= i < n && outputs[i].op == outputs[n].op;
      assert !DistinctOutputs(outputs);
    }
  }

  // ---- every eligible output, no change ----

  lemma {:induction false} ConsistentMeansEligible(env: Env, keys: seq<Key>, outputs: seq<Output>, excluded: set<OutPoint>)
    requires EveryConsistent(env, keys, outputs)
    ensures AllConsistent(env, keys, outputs, excluded)
  {
    hide Consistent;
  }

  /** Asking for the whole total selects everything. */
  lemma {:induction false} WholeTotal(env: Env, keys: seq<Key>, outputs: seq<Output>, excluded: set<OutPoint>)
    requires EveryConsistent(env, keys, outputs) && |outputs| <= MAX_CANDIDATES
    ensures Chosen(outputs, excluded, Amounts(Eligible(outputs, excluded))) == Ranked(Eligible(outputs, excluded))
    ensures Amounts(Ranked(Eligible(outputs, excluded))) == Amounts(Eligible(outputs, excluded))
    ensures multiset(Ranked(Eligible(outputs, excluded))) == multiset(Eligible(outputs, excluded))
  {
    hide Ranked, Eligible, Cut, Amounts, Consistent, AllConsistent;
    var cs := Eligible(outputs, excluded);
    var s, need := Ranked(cs), Amounts(cs);
    ConsistentMeansEligible(env, keys, outputs, excluded);
    RankedFacts(cs);
    EligibleAllPositive(env, keys, outputs, excluded);
    BestFacts(env, keys, outputs, excluded);
    PartAmounts(cs, s);
    PartAmounts(s, cs);
    var n := Cut(s, need, 0);
    CutFacts(s, need, 0);
    AmountsGrow(s, n, |s|);
    assert s[..|s|] == s;
  }

  /** A maximum send spends every eligible output and has one output: the total less the fee, to the destination. */
  lemma {:induction false} MaximumIsWhole(env: Env, keys: seq<Key>, outputs: seq<Output>, spendable: int, to: Pkh, fee: int, excluded: set<OutPoint>)
    requires MaximumPlan(env, keys, outputs, spendable, to, fee, excluded).Ok?
    ensures var p := MaximumPlan(env, keys, outputs, spendable, to, fee, excluded).value;
            && p.tx.outs == [TxOut(Amounts(Eligible(outputs, excluded)) - fee, to)]
            && p.selected == Ops(Ranked(Eligible(outputs, excluded)))
            && |p.selected| == |Eligible(outputs, excluded)|
            && multiset(Ranked(Eligible(outputs, excluded))) == multiset(Eligible(outputs, excluded))
            && |TxBytes(p.tx)| <= MAX_TX_BYTES
  {
    hide Ranked, Eligible, Cut, Amounts, TxBytes, AllConsistent, Chosen, EveryConsistent, DistinctOutputs, OutputTotal, Paying, Ops;
    var total := Amounts(Eligible(outputs, excluded));
    WholeTotal(env, keys, outputs, excluded);
    PayingParts(env, keys, Chosen(outputs, excluded, total), to, total - fee, fee);
  }

  /** It succeeds exactly when the snapshot is consistent, the total exceeds the fee, and there are at
      most 74 eligible outputs. */
  lemma {:induction false} MaximumIff(env: Env, keys: seq<Key>, outputs: seq<Output>, spendable: int, to: Pkh, fee: int, excluded: set<OutPoint>)
    requires WithinLimits(keys, outputs, spendable, fee, excluded)
    ensures MaximumPlan(env, keys, outputs, spendable, to, fee, excluded).Ok? <==>
      (&& SnapshotOk(env, keys, outputs, spendable)
       && Amounts(Eligible(outputs, excluded)) > fee
       && |Eligible(outputs, excluded)| <= 74)
  {
    hide Ranked, Eligible, Cut, Amounts, TxBytes, AllConsistent, Chosen, DistinctOutputs, EveryConsistent, OutputTotal, Paying, Ops;
    if SnapshotOk(env, keys, outputs, spendable) && Amounts(Eligible(outputs, excluded)) > fee {
      var total := Amounts(Eligible(outputs, excluded));
      ConsistentMeansEligible(env, keys, outputs, excluded);
      WholeTotal(env, keys, outputs, excluded);
      ChosenFacts(env, keys, outputs, excluded, total);
      ChosenSize(env, keys, Chosen(outputs, excluded, total), to, total - fee, fee);
      EligibleWithinTotal(env, keys, outputs, excluded, |outputs|);
      assert outputs[..|outputs|] == outputs;
    }
  }

  method BuildMaximum(env: Env, keys: seq<Key>, outputs: seq<Output>, spendable: int, to: Pkh, fee: int, excluded: set<OutPoint>)
    returns (res: Result<Prepared, Failure>)
    ensures res == MaximumPlan(env, keys, outputs, spendable, to, fee, excluded)
  {
    hide Ranked, Eligible, Cut, Amounts, TxBytes, AllConsistent, Chosen, SnapshotOk, PaymentPlan;
    if !WithinLimits(keys, outputs, spendable, fee, excluded) {
      return Err(BadSnapshot);
    }
    var scanned := ScanSnapshot(env, keys, outputs, spendable, excluded);
    if scanned.None? {
      return Err(BadSnapshot);
    }
    var total, count := scanned.value.0, scanned.value.1;
    if total <= fee {
      return Err(Insufficient(total, fee));
    }
    res := BuildPayment(env, keys, outputs, to, total - fee, fee, excluded);
    if res.Ok? {
      // the code re-checks its own result here; the checks always hold
      MaximumIsWhole(env, keys, outputs, spendable, to, fee, excluded);
      assert res.value.tx.outs == [TxOut(total - fee, to)] && |res.value.selected| == count;
    }
  }

  /** What a maximum send presupposes of its snapshot: sizes and fee within limits, no outpoint twice, every output owned by the
      key it names with an amount in range, and amounts that add up to the stated total. */
  lemma {:induction false} MaximumPresupposes(env: Env, keys: seq<Key>, outputs: seq<Output>, spendable: int, to: Pkh, fee: int, excluded: set<OutPoint>)
    requires MaximumPlan(env, keys, outputs, spendable, to, fee, excluded).Ok?
    ensures 0 <= fee <= 21_000_000 * 100_000_000 && |excluded| <= 4096 && 0 < |keys| <= 10_000 && |outputs| <= 10_000
    ensures forall i :: 0 <= i < |outputs| ==>
              && 0 <= outputs[i].key < |keys| && env.pkhOf(keys[outputs[i].key].pub) == outputs[i].owner
              && 0 < outputs[i].amount <= 21_000_000 * 100_000_000
    ensures forall i, j :: 0 <= i < j < |outputs| ==> outputs[i].op != outputs[j].op
    ensures OutputTotal(outputs) == spendable
  {
    hide PaymentPlan, Eligible, Amounts, OutputTotal;
    forall i | 0 <= i < |outputs|
      ensures Consistent(env, keys, outputs[i]) {
    }
  }
}
