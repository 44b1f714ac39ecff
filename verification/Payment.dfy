/** Building a payment from a wallet snapshot (wallet/wallet.go). */
module Payment {
  import opened Types
  import opened Money
  import opened Varint
  import opened Wire
  import opened Sorting
  import opened Signing
  import opened Selection

  const MAX_TX_BYTES := 10_000

  /** One spendable output of the snapshot and the index of the key that owns it. */
  datatype Output = Output(op: OutPoint, amount: int, owner: Pkh, key: int)

  datatype Prepared = Prepared(tx: Tx, selected: seq<OutPoint>)

  datatype Failure = BadSnapshot | SumRange | Insufficient(have: int, need: int) | TooLarge

  predicate Consistent(env: Env, keys: seq<Key>, o: Output) {
    && 0 <= o.key < |keys| && env.pkhOf(keys[o.key].pub) == o.owner
    && 0 < o.amount <= MAX_MONEY
  }

  predicate AllConsistent(env: Env, keys: seq<Key>, outputs: seq<Output>, excluded: set<OutPoint>) {
    forall i :: 0 <= i < |outputs| && outputs[i].op !in excluded ==> Consistent(env, keys, outputs[i])
  }

  function Eligible(outputs: seq<Output>, excluded: set<OutPoint>): (r: seq<Candidate>)
    ensures |r| <= |outputs|
  {
    if outputs == [] then []
    else
      var o := outputs[|outputs| - 1];
      var before := Eligible(outputs[..|outputs| - 1], excluded);
      if o.op in excluded then before else before + [Candidate(o.op, o.amount, o.key)]
  }

  function Drafted(chosen: seq<Candidate>): (r: seq<TxIn>)
    ensures |r| == |chosen|
    ensures forall i :: 0 <= i < |chosen| ==> r[i] == TxIn(chosen[i].op, [], [])
  {
    if chosen == [] then [] else [TxIn(chosen[0].op, [], [])] + Drafted(chosen[1..])
  }

  ghost predicate KeysIn(keys: seq<Key>, chosen: seq<Candidate>) {
    forall i :: 0 <= i < |chosen| ==> 0 <= chosen[i].key < |keys|
  }

  const NO_KEY := Key(Zeros(32), (d: Hash) => Zeros(64))

  function KeysFor(keys: seq<Key>, chosen: seq<Candidate>): (r: seq<Key>)
    ensures |r| == |chosen|
    ensures forall i :: 0 <= i < |chosen| && 0 <= chosen[i].key < |keys| ==> r[i] == keys[chosen[i].key]
  {
    if chosen == [] then []
    else
      [if 0 <= chosen[0].key < |keys| then keys[chosen[0].key] else NO_KEY] + KeysFor(keys, chosen[1..])
  }

  function Ops(chosen: seq<Candidate>): (r: seq<OutPoint>)
    ensures |r| == |chosen|
    ensures forall i :: 0 <= i < |chosen| ==> r[i] == chosen[i].op
  {
    if chosen == [] then [] else [chosen[0].op] + Ops(chosen[1..])
  }

  function Outputs(to: Pkh, amount: int, change: int, home: Pkh): seq<TxOut> {
    if change > 0 then [TxOut(amount, to), TxOut(change, home)] else [TxOut(amount, to)]
  }

  function Home(env: Env, keys: seq<Key>): Pkh {
    if keys == [] then ZERO_PKH else env.pkhOf(keys[0].pub)
  }

  /** The signed payment from a given choice of inputs. */
  function Paying(env: Env, keys: seq<Key>, chosen: seq<Candidate>, to: Pkh, amount: int, fee: int): Tx {
    var outs := Outputs(to, amount, Amounts(chosen) - amount - fee, Home(env, keys));
    SignedTx(env, Tx(1, Drafted(chosen), outs, []), KeysFor(keys, chosen))
  }

  function Chosen(outputs: seq<Output>, excluded: set<OutPoint>, need: int): seq<Candidate> {
    var best := Top(Ranked(Eligible(outputs, excluded)), MAX_CANDIDATES);
    best[..Cut(best, need, 0)]
  }

  /** `buildPaymentFromSnapshot`. */
  function PaymentPlan(env: Env, keys: seq<Key>, outputs: seq<Output>, to: Pkh, amount: int, fee: int, excluded: set<OutPoint>)
    : Result<Prepared, Failure>
  {
    if !AllConsistent(env, keys, outputs, excluded) then Err(BadSnapshot)
    else
      var chosen := Chosen(outputs, excluded, amount + fee);
      if Amounts(chosen) > MAX_MONEY then Err(SumRange)
      else if Amounts(chosen) < amount + fee then Err(Insufficient(Amounts(chosen), amount + fee))
      else
        var tx := Paying(env, keys, chosen, to, amount, fee);
        if |TxBytes(tx)| > MAX_TX_BYTES then Err(TooLarge) else Ok(Prepared(tx, Ops(chosen)))
  }

  // ---- the loops ----

  lemma {:induction false} EligibleSnoc(outputs: seq<Output>, n: nat, excluded: set<OutPoint>)
    requires n < |outputs|
    ensures Eligible(outputs[..n + 1], excluded) ==
            Eligible(outputs[..n], excluded)
              + if outputs[n].op in excluded then [] else [Candidate(outputs[n].op, outputs[n].amount, outputs[n].key)]
    ensures outputs[n].op in excluded ==> Eligible(outputs[..n + 1], excluded) == Eligible(outputs[..n], excluded)
  {
    assert outputs[..n + 1][..n] == outputs[..n];
  }

  lemma {:induction false} OfferNext(cs: seq<Candidate>, x: Candidate, k: nat)
    ensures Top(Ranked(cs + [x]), k) == Offer(Top(Ranked(cs), k), x, k)
  {
    hide Place, Sorted, Better;
    assert (cs + [x])[..|cs|] == cs;
    RankedFacts(cs);
    PlaceTop(Ranked(cs), x, k);
  }

  /** Keeps the best candidates in a bounded heap, then sorts them. */
  method CollectBest(env: Env, keys: seq<Key>, outputs: seq<Output>, excluded: set<OutPoint>) returns (res: Option<seq<Candidate>>)
    ensures res.Some? <==> AllConsistent(env, keys, outputs, excluded)
    ensures res.Some? ==> res.value == Top(Ranked(Eligible(outputs, excluded)), MAX_CANDIDATES)
  {
    hide Ranked, Eligible, Better, Sort, Place;
    var kept: seq<Candidate>, i := [], 0;
    assert Eligible(outputs[..0], excluded) == [] && Ranked([]) == [] by { NoneEligible(outputs, excluded); }
    while i < |outputs|
      invariant 0 <= i <= |outputs|
      invariant forall j :: 0 <= j < i && outputs[j].op !in excluded ==> Consistent(env, keys, outputs[j])
      invariant kept == Top(Ranked(Eligible(outputs[..i], excluded)), MAX_CANDIDATES)
    {
      var o := outputs[i];
      EligibleSnoc(outputs, i, excluded);
      if o.op !in excluded {
        if o.key < 0 || o.key >= |keys| || env.pkhOf(keys[o.key].pub) != o.owner {
          return None;
        }
        if o.amount <= 0 || !MoneyRange(o.amount) {
          return None;
        }
        var candidate := Candidate(o.op, o.amount, o.key);
        OfferNext(Eligible(outputs[..i], excluded), candidate, MAX_CANDIDATES);
        if |kept| < MAX_CANDIDATES {
          kept := Place(candidate, kept);
        } else if Better(candidate, kept[|kept| - 1]) {
          kept := kept[..|kept| - 1];
          kept := Place(candidate, kept);
        }
      }
      i := i + 1;
    }
    assert outputs[..i] == outputs;
    KeptSorted(Eligible(outputs, excluded), MAX_CANDIDATES);
    kept := Sort(kept, BetterLe);
    return Some(kept);
  }

  lemma {:induction false} NoneEligible(outputs: seq<Output>, excluded: set<OutPoint>)
    ensures Eligible(outputs[..0], excluded) == [] && Ranked([]) == []
  {
  }

  lemma {:induction false} KeptSorted(cs: seq<Candidate>, k: nat)
    ensures Sort(Top(Ranked(cs), k), BetterLe) == Top(Ranked(cs), k)
  {
    hide BetterLe, Sort, Ranked;
    RankedFacts(cs);
    SortOfSorted(Top(Ranked(cs), k));
  }

  ghost predicate PositiveAmounts(cs: seq<Candidate>) {
    forall i :: 0 <= i < |cs| ==> 0 < cs[i].amount <= MAX_MONEY
  }

  lemma {:induction false} AmountsSnoc(cs: seq<Candidate>, n: nat)
    requires n < |cs|
    ensures Amounts(cs[..n + 1]) == Amounts(cs[..n]) + cs[n].amount
  {
    assert cs[..n + 1] == cs[..n] + [cs[n]];
    AmountsConcat(cs[..n], [cs[n]]);
    assert [cs[n]][1..] == [];
    assert Amounts([cs[n]]) == cs[n].amount;
  }

  lemma {:induction false} AmountsGrow(cs: seq<Candidate>, a: nat, b: nat)
    requires PositiveAmounts(cs) && a <= b <= |cs|
    ensures 0 <= Amounts(cs[..a]) <= Amounts(cs[..b])
    ensures a < b ==> Amounts(cs[..a]) < Amounts(cs[..b])
    decreases b
  {
    hide Amounts;
    if a < b {
      AmountsSnoc(cs, b - 1);
      AmountsGrow(cs, a, b - 1);
    } else if a > 0 {
      AmountsSnoc(cs, a - 1);
      AmountsGrow(cs, a - 1, a - 1);
    } else {
      NoAmounts(cs);
    }
  }

  lemma {:induction false} NoAmounts(cs: seq<Candidate>)
    ensures Amounts(cs[..0]) == 0
  {
  }

  /** Takes the best candidates until they cover the need. */
  method TakeInputs(best: seq<Candidate>, need: int) returns (res: Option<(nat, int)>)
    requires PositiveAmounts(best) && |best| <= MAX_INPUTS && need > 0
    ensures var n := Cut(best, need, 0);
            res == if Amounts(best[..n]) <= MAX_MONEY then Some((n, Amounts(best[..n]))) else None
  {
    hide Amounts, Cut;
    var n, sum := 0, 0;
    NoAmounts(best);
    while n < |best|
      invariant 0 <= n <= |best| && sum == Amounts(best[..n]) <= MAX_MONEY
      invariant Cut(best, need, 0) == Cut(best, need, n) && (n > 0 ==> sum < need)
    {
      var candidate := best[n];
      CutNext(best, need, n);
      AmountsSnoc(best, n);
      if !MoneyRange(candidate.amount) || sum > MAX_MONEY - candidate.amount {
        AmountsGrow(best, n + 1, Cut(best, need, 0));
        return None;
      }
      n := n + 1;
      sum := sum + candidate.amount;
      if sum >= need {
        CutStops(best, need, n);
        return Some((n, sum));
      }
    }
    CutStops(best, need, n);
    return Some((n, sum));
  }

  lemma {:induction false} CutNext(best: seq<Candidate>, need: int, n: nat)
    requires n < |best| && (n > 0 ==> Amounts(best[..n]) < need)
    ensures Cut(best, need, n) == Cut(best, need, n + 1)
  {
  }

  lemma {:induction false} CutStops(best: seq<Candidate>, need: int, n: nat)
    requires n <= |best| && (n == |best| || (n > 0 && Amounts(best[..n]) >= need))
    ensures Cut(best, need, n) == n
  {
  }

  method BuildPayment(env: Env, keys: seq<Key>, outputs: seq<Output>, to: Pkh, amount: int, fee: int, excluded: set<OutPoint>)
    returns (res: Result<Prepared, Failure>)
    requires amount > 0 && fee >= 0
    ensures res == PaymentPlan(env, keys, outputs, to, amount, fee, excluded)
  {
    hide Ranked, Eligible, Cut, Amounts, TxBytes, SignedTx, AllConsistent;
    var best := CollectBest(env, keys, outputs, excluded);
    if best.None? {
      return Err(BadSnapshot);
    }
    var candidates, need := best.value, amount + fee;
    BestFacts(env, keys, outputs, excluded);
    var taken := TakeInputs(candidates, need);
    if taken.None? {
      return Err(SumRange);
    }
    var n, sum := taken.value.0, taken.value.1;
    if sum < need {
      return Err(Insufficient(sum, need));
    }
    assert n > 0 by { NoAmounts(candidates); }
    assert 0 <= candidates[0].key < |keys|;
    var outs := [TxOut(amount, to)];
    if sum - need > 0 {
      outs := outs + [TxOut(sum - need, env.pkhOf(keys[0].pub))];
    }
    assert outs == Outputs(to, amount, sum - amount - fee, Home(env, keys));
    var tx := Sign(env, Tx(1, Drafted(candidates[..n]), outs, []), KeysFor(keys, candidates[..n]));
    assert tx.value == Paying(env, keys, candidates[..n], to, amount, fee);
    if |TxBytes(tx.value)| > MAX_TX_BYTES {
      return Err(TooLarge);
    }
    return Ok(Prepared(tx.value, Ops(candidates[..n])));
  }

  lemma {:induction false} EligibleFrom(env: Env, keys: seq<Key>, outputs: seq<Output>, excluded: set<OutPoint>, c: Candidate)
    requires c in Eligible(outputs, excluded)
    ensures exists i :: 0 <= i < |outputs| && outputs[i].op !in excluded && c == Candidate(outputs[i].op, outputs[i].amount, outputs[i].key)
  {
    var n := |outputs| - 1;
    var init := outputs[..n];
    if c in Eligible(init, excluded) {
      EligibleFrom(env, keys, init, excluded, c);
      var i :| 0 <= i < |init| && init[i].op !in excluded && c == Candidate(init[i].op, init[i].amount, init[i].key);
      assert outputs[i] == init[i];
    }
  }

  lemma {:induction false} BestFrom(outputs: seq<Output>, excluded: set<OutPoint>, i: nat)
    requires i < |Top(Ranked(Eligible(outputs, excluded)), MAX_CANDIDATES)|
    ensures Top(Ranked(Eligible(outputs, excluded)), MAX_CANDIDATES)[i] in Eligible(outputs, excluded)
  {
    hide Ranked, Eligible, BetterLe;
    var cs := Eligible(outputs, excluded);
    RankedFacts(cs);
    assert Ranked(cs)[i] in multiset(Ranked(cs));
  }

  lemma {:induction false} BestFacts(env: Env, keys: seq<Key>, outputs: seq<Output>, excluded: set<OutPoint>)
    requires AllConsistent(env, keys, outputs, excluded)
    ensures var best := Top(Ranked(Eligible(outputs, excluded)), MAX_CANDIDATES);
            && PositiveAmounts(best) && KeysIn(keys, best)
            && (forall i :: 0 <= i < |best| ==> best[i].op !in excluded)
            && |best| <= MAX_CANDIDATES
  {
    hide Ranked, Eligible;
    var best := Top(Ranked(Eligible(outputs, excluded)), MAX_CANDIDATES);
    forall i | 0 <= i < |best| ensures 0 < best[i].amount <= MAX_MONEY && 0 <= best[i].key < |keys| && best[i].op !in excluded {
      BestFrom(outputs, excluded, i);
      EligibleFrom(env, keys, outputs, excluded, best[i]);
    }
  }
}
