/** Prepared payments are minimal, exact and admitted by the chain (wallet/wallet.go, core/chain.go). */
module PaymentTheorems {
  import opened Types
  import opened Bits
  import opened Money
  import opened Params
  import opened Difficulty
  import opened Ledger
  import opened Supply
  import opened Consensus
  import opened Invariant
  import opened Outpoints
  import opened Varint
  import opened Wire
  import opened Sorting
  import opened Signing
  import opened Selection
  import opened Payment

  // ---- fewest inputs ----

  /** A prepared payment uses the fewest inputs of any eligible set that covers amount plus fee. */
  lemma {:induction false} PaymentFewest(env: Env, keys: seq<Key>, outputs: seq<Output>, to: Pkh, amount: int, fee: int,
                                         excluded: set<OutPoint>, t: seq<Candidate>)
    requires amount > 0 && fee >= 0 && PaymentPlan(env, keys, outputs, to, amount, fee, excluded).Ok?
    requires multiset(t) <= multiset(Eligible(outputs, excluded)) && Amounts(t) >= amount + fee
    ensures |PaymentPlan(env, keys, outputs, to, amount, fee, excluded).value.selected| <= |t|
  {
    hide Ranked, Eligible, Cut, Amounts, TxBytes, Paying, AllConsistent;
    if |t| <= MAX_CANDIDATES {
      FewestInputs(Eligible(outputs, excluded), MAX_CANDIDATES, amount + fee, t);
    }
  }

  /** The 10,000-byte limit is a limit of 74 inputs, with or without change. */
  lemma {:induction false} SeventyFour(n: nat, outs: nat)
    requires outs == 1 || outs == 2
    ensures SizeFor(n, outs) <= MAX_TX_BYTES <==> n <= 74
  {
    hide PutUvarint;
    UvarintShort(n);
    UvarintShort(outs);
  }

  ghost predicate GoodKeys(env: Env, keys: seq<Key>) {
    forall i :: 0 <= i < |keys| ==> GoodKey(env, keys[i])
  }

  ghost predicate Covers(outputs: seq<Output>, excluded: set<OutPoint>, need: int, t: seq<Candidate>) {
    |t| <= 74 && multiset(t) <= multiset(Eligible(outputs, excluded)) && Amounts(t) >= need
  }

  ghost predicate Coverable(outputs: seq<Output>, excluded: set<OutPoint>, need: int) {
    exists t :: Covers(outputs, excluded, need, t)
  }

  lemma {:induction false} ChosenSize(env: Env, keys: seq<Key>, chosen: seq<Candidate>, to: Pkh, amount: int, fee: int)
    ensures |TxBytes(Paying(env, keys, chosen, to, amount, fee))| <= MAX_TX_BYTES <==> |chosen| <= 74
  {
    hide TxBytes, SizeFor, Amounts, KeysFor, Drafted;
    var change := Amounts(chosen) - amount - fee;
    var outs := Outputs(to, amount, change, Home(env, keys));
    SignedSize(env, Tx(1, Drafted(chosen), outs, []), KeysFor(keys, chosen));
    SeventyFour(|chosen|, |outs|);
  }

  lemma {:induction false} ChosenFacts(env: Env, keys: seq<Key>, outputs: seq<Output>, excluded: set<OutPoint>, need: int)
    requires AllConsistent(env, keys, outputs, excluded)
    ensures var chosen := Chosen(outputs, excluded, need);
            && KeysIn(keys, chosen) && PositiveAmounts(chosen)
            && (forall i :: 0 <= i < |chosen| ==> chosen[i].op !in excluded)
            && multiset(chosen) <= multiset(Eligible(outputs, excluded))
  {
    hide Ranked, Eligible, Cut, AllConsistent;
    BestFacts(env, keys, outputs, excluded);
    RankedFacts(Eligible(outputs, excluded));
    var s := Ranked(Eligible(outputs, excluded));
    var best := Top(s, MAX_CANDIDATES);
    var n := Cut(best, need, 0);
    assert best[..n] == s[..n] && s == s[..n] + s[n..];
    assert multiset(s) == multiset(s[..n]) + multiset(s[n..]);
  }

  lemma {:induction false} PartAmounts(cs: seq<Candidate>, t: seq<Candidate>)
    requires PositiveAmounts(cs) && multiset(t) <= multiset(cs)
    ensures Amounts(t) <= Amounts(cs)
    decreases |t|
  {
    hide PositiveAmounts;
    if t == [] {
      EligiblePositive(cs);
    } else {
      assert t[0] in multiset(t);
      assert t[0] in cs;
      var i :| 0 <= i < |cs| && cs[i] == t[0];
      AmountsRemove(cs, i);
      var rest := cs[..i] + cs[i + 1..];
      PositivePart(cs, i);
      TailMultiset(t);
      PartAmounts(rest, t[1..]);
    }
  }

  lemma {:induction false} EligiblePositive(cs: seq<Candidate>)
    requires PositiveAmounts(cs)
    ensures Amounts(cs) >= 0
  {
    AmountsGrow(cs, 0, |cs|);
    assert cs[..|cs|] == cs;
  }

  lemma {:induction false} PositivePart(cs: seq<Candidate>, i: nat)
    requires PositiveAmounts(cs) && i < |cs|
    ensures PositiveAmounts(cs[..i] + cs[i + 1..])
  {
  }

  lemma {:induction false} EligibleAllPositive(env: Env, keys: seq<Key>, outputs: seq<Output>, excluded: set<OutPoint>)
    requires AllConsistent(env, keys, outputs, excluded)
    ensures PositiveAmounts(Eligible(outputs, excluded)) && KeysIn(keys, Eligible(outputs, excluded))
    ensures forall i :: 0 <= i < |Eligible(outputs, excluded)| ==> Eligible(outputs, excluded)[i].op !in excluded
  {
    hide Eligible;
    var cs := Eligible(outputs, excluded);
    forall i | 0 <= i < |cs| ensures 0 < cs[i].amount <= MAX_MONEY && 0 <= cs[i].key < |keys| && cs[i].op !in excluded {
      EligibleFrom(env, keys, outputs, excluded, cs[i]);
    }
  }

  /** From a consistent snapshot a payment can be prepared exactly when some 74 or fewer eligible
      outputs cover amount plus fee. */
  lemma {:induction false} PaymentSucceedsIff(env: Env, keys: seq<Key>, outputs: seq<Output>, to: Pkh, amount: int, fee: int,
                                              excluded: set<OutPoint>)
    requires amount > 0 && fee >= 0 && AllConsistent(env, keys, outputs, excluded)
    requires Amounts(Eligible(outputs, excluded)) <= MAX_MONEY
    ensures PaymentPlan(env, keys, outputs, to, amount, fee, excluded).Ok? <==> Coverable(outputs, excluded, amount + fee)
  {
    hide Ranked, Eligible, Cut, Amounts, TxBytes, Paying, AllConsistent, Chosen;
    var need := amount + fee;
    var chosen := Chosen(outputs, excluded, need);
    ChosenFacts(env, keys, outputs, excluded, need);
    ChosenSize(env, keys, chosen, to, amount, fee);
    EligibleAllPositive(env, keys, outputs, excluded);
    PartAmounts(Eligible(outputs, excluded), chosen);
    if t :| Covers(outputs, excluded, need, t) {
      CoverWins(outputs, excluded, need, t);
    }
    if PaymentPlan(env, keys, outputs, to, amount, fee, excluded).Ok? {
      assert Covers(outputs, excluded, need, chosen);
    }
  }

  lemma {:induction false} CoverWins(outputs: seq<Output>, excluded: set<OutPoint>, need: int, t: seq<Candidate>)
    requires need > 0 && Covers(outputs, excluded, need, t)
    ensures |Chosen(outputs, excluded, need)| <= 74 && Amounts(Chosen(outputs, excluded, need)) >= need
  {
    hide Ranked, Eligible, Cut, Amounts;
    FewestInputs(Eligible(outputs, excluded), MAX_CANDIDATES, need, t);
  }

  // ---- exact amounts ----

  /** A payment spends only eligible outputs, pays the destination the amount, and leaves exactly the fee. */
  lemma {:induction false} PaymentBalances(env: Env, keys: seq<Key>, outputs: seq<Output>, to: Pkh, amount: int, fee: int, excluded: set<OutPoint>)
    requires amount > 0 && fee >= 0 && PaymentPlan(env, keys, outputs, to, amount, fee, excluded).Ok?
    ensures var p := PaymentPlan(env, keys, outputs, to, amount, fee, excluded).value;
            var chosen := Chosen(outputs, excluded, amount + fee);
            && p.selected == Ops(chosen) && multiset(chosen) <= multiset(Eligible(outputs, excluded))
            && |p.tx.ins| == |chosen| && (forall i :: 0 <= i < |chosen| ==> p.tx.ins[i].prev == chosen[i].op && chosen[i].op !in excluded)
            && p.tx.outs == Outputs(to, amount, Amounts(chosen) - amount - fee, Home(env, keys))
            && OutSum(p.tx.outs, |p.tx.outs|) == Amounts(chosen) - fee
            && |p.tx.outs| > 0 && GoodOutputs(p.tx.outs, |p.tx.outs|)
  {
    hide Ranked, Eligible, Cut, Amounts, TxBytes, AllConsistent, Chosen, OutSum, GoodOutputs, Paying, Outputs, Ops;
    var chosen := Chosen(outputs, excluded, amount + fee);
    ChosenFacts(env, keys, outputs, excluded, amount + fee);
    PayingParts(env, keys, chosen, to, amount, fee);
    OutputsSum(to, amount, Amounts(chosen) - amount - fee, Home(env, keys));
  }

  lemma {:induction false} PayingParts(env: Env, keys: seq<Key>, chosen: seq<Candidate>, to: Pkh, amount: int, fee: int)
    ensures var tx := Paying(env, keys, chosen, to, amount, fee);
            && |tx.ins| == |chosen| && (forall i :: 0 <= i < |chosen| ==> tx.ins[i].prev == chosen[i].op)
            && tx.outs == Outputs(to, amount, Amounts(chosen) - amount - fee, Home(env, keys))
  {
    hide Amounts, Outputs, Drafted, KeysFor, SignedTx;
  }

  lemma {:induction false} OutputsSum(to: Pkh, amount: int, change: int, home: Pkh)
    requires amount > 0 && change >= 0 && amount + change <= MAX_MONEY
    ensures var outs := Outputs(to, amount, change, home);
            && |outs| > 0 && OutSum(outs, |outs|) == amount + change && GoodOutputs(outs, |outs|)
  {
    var outs := Outputs(to, amount, change, home);
    assert OutSum(outs, 1) == OutSum(outs, 0) + amount;
    assert |outs| == 2 ==> OutSum(outs, 2) == OutSum(outs, 1) + outs[1].value;
  }

  // ---- who is paid ----

  /** The eligible candidates are the snapshot's outputs that are not excluded, each with its amount and key, one for one. */
  lemma {:induction false} EligibleExact(outputs: seq<Output>, excluded: set<OutPoint>)
    ensures forall c :: c in Eligible(outputs, excluded) <==>
      exists i :: 0 <= i < |outputs| && outputs[i].op !in excluded && c == Candidate(outputs[i].op, outputs[i].amount, outputs[i].key)
    ensures |Eligible(outputs, excluded)| == |set i | 0 <= i < |outputs| && outputs[i].op !in excluded|
  {
    if outputs != [] {
      var n := |outputs| - 1;
      var init := outputs[..n];
      EligibleExact(init, excluded);
      var a, b := set i | 0 <= i < n && init[i].op !in excluded, set i | 0 <= i < |outputs| && outputs[i].op !in excluded;
      assert b == if outputs[n].op in excluded then a else a + {n};
      forall c ensures c in Eligible(outputs, excluded) <==>
        exists i :: 0 <= i < |outputs| && outputs[i].op !in excluded && c == Candidate(outputs[i].op, outputs[i].amount, outputs[i].key) {
        EligibleLast(outputs, excluded, c);
      }
    }
  }

  lemma {:induction false} EligibleLast(outputs: seq<Output>, excluded: set<OutPoint>, c: Candidate)
    requires outputs != []
    requires var init := outputs[..|outputs| - 1];
             c in Eligible(init, excluded) <==>
             exists i :: 0 <= i < |init| && init[i].op !in excluded && c == Candidate(init[i].op, init[i].amount, init[i].key)
    ensures c in Eligible(outputs, excluded) <==>
      exists i :: 0 <= i < |outputs| && outputs[i].op !in excluded && c == Candidate(outputs[i].op, outputs[i].amount, outputs[i].key)
  {
    var n := |outputs| - 1;
    var init := outputs[..n];
    forall i | 0 <= i < n ensures init[i] == outputs[i] {
    }
    var before := Eligible(init, excluded);
    assert c in Eligible(outputs, excluded) <==>
      c in before || (outputs[n].op !in excluded && c == Candidate(outputs[n].op, outputs[n].amount, outputs[n].key));
  }

  /** A payment is a version-1 transaction without a tag that pays the destination the amount first; whatever its inputs hold
      beyond amount and fee goes back to the wallet's first key in a second output, and there is no other. Each input carries the
      public key its output belongs to. */
  lemma {:induction false} PaymentPays(env: Env, keys: seq<Key>, outputs: seq<Output>, to: Pkh, amount: int, fee: int, excluded: set<OutPoint>)
    requires amount > 0 && fee >= 0 && PaymentPlan(env, keys, outputs, to, amount, fee, excluded).Ok?
    ensures |keys| > 0
    ensures var p := PaymentPlan(env, keys, outputs, to, amount, fee, excluded).value;
            var chosen := Chosen(outputs, excluded, amount + fee);
            var change := Amounts(chosen) - amount - fee;
            && p.tx.version == 1 && p.tx.lockTag == []
            && |p.tx.outs| > 0 && p.tx.outs[0] == TxOut(amount, to)
            && change >= 0
            && (change > 0 ==> |p.tx.outs| == 2 && p.tx.outs[1] == TxOut(change, env.pkhOf(keys[0].pub)))
            && (change == 0 ==> |p.tx.outs| == 1)
            && |p.tx.ins| == |chosen| == |p.selected|
            && (forall i :: 0 <= i < |chosen| ==>
                  && p.tx.ins[i].prev == p.selected[i] == chosen[i].op
                  && 0 <= chosen[i].key < |keys| && p.tx.ins[i].pubKey == keys[chosen[i].key].pub)
  {
    hide Ranked, Eligible, Cut, Amounts, TxBytes, AllConsistent, Chosen;
    var chosen := Chosen(outputs, excluded, amount + fee);
    ChosenFacts(env, keys, outputs, excluded, amount + fee);
    NoChosen(chosen);
    assert 0 <= chosen[0].key < |keys|;
  }

  lemma {:induction false} LaterMember(all: seq<Candidate>, n: nat, c: Candidate) returns (k: nat)
    requires n <= |all| && c in multiset(all) - multiset(all[..n])
    ensures n <= k < |all| && all[k] == c
  {
    var rest := all[n..];
    assert all == all[..n] + rest;
    assert c in multiset(rest);
    var j :| 0 <= j < |rest| && rest[j] == c;
    k := n + j;
  }

  lemma {:induction false} ChosenPrefix(outputs: seq<Output>, excluded: set<OutPoint>, need: int)
    ensures var all, chosen := Ranked(Eligible(outputs, excluded)), Chosen(outputs, excluded, need);
            && |chosen| <= |all| && chosen == all[..|chosen|]
            && forall n :: 0 < n < |chosen| ==> Amounts(chosen[..n]) < need
  {
    hide Eligible, Ranked, Amounts, Cut;
    var all := Ranked(Eligible(outputs, excluded));
    var best := Top(all, MAX_CANDIDATES);
    var n := Cut(best, need, 0);
    CutFacts(best, need, 0);
    TopOfSorted(all, MAX_CANDIDATES, n);
    forall m | 0 < m < n ensures Amounts(best[..n][..m]) < need {
      assert best[..n][..m] == best[..m];
    }
  }

  /** Inputs are taken largest first, equal amounts by transaction id and index, and no more of them than it takes. */
  lemma {:induction false} LargestFirst(outputs: seq<Output>, excluded: set<OutPoint>, need: int, c: Candidate, i: nat)
    requires var chosen := Chosen(outputs, excluded, need);
             i < |chosen| && c in multiset(Eligible(outputs, excluded)) - multiset(chosen)
    ensures var x := Chosen(outputs, excluded, need)[i];
            || x.amount > c.amount
            || (x.amount == c.amount && BigEndian(x.op.txId) < BigEndian(c.op.txId))
            || (x.amount == c.amount && BigEndian(x.op.txId) == BigEndian(c.op.txId) && x.op.idx <= c.op.idx)
    ensures forall n :: 0 < n < |Chosen(outputs, excluded, need)| ==> Amounts(Chosen(outputs, excluded, need)[..n]) < need
  {
    hide Eligible, Ranked, Amounts, BigEndian, Chosen;
    var all := Ranked(Eligible(outputs, excluded));
    RankedFacts(Eligible(outputs, excluded));
    ChosenPrefix(outputs, excluded, need);
    var k := LaterMember(all, |Chosen(outputs, excluded, need)|, c);
    assert BetterLe(all[i], all[k]);
  }

  // ---- admission ----

  predicate SpentByPool(mempool: map<Hash, Tx>, op: OutPoint) {
    exists id, i :: id in mempool && 0 <= i < |mempool[id].ins| && mempool[id].ins[i].prev == op
  }

  /** The output is unspent on the chain as the snapshot describes it, spendable in the next block, and not reserved. */
  ghost predicate OnChain(r: Rules, s: State, o: Output) {
    && o.op in s.utxo && s.utxo[o.op].value == o.amount && s.utxo[o.op].pkh == o.owner
    && (s.utxo[o.op].coinbase ==> s.tip.height + 1 - s.utxo[o.op].height >= r.p.coinbaseMaturity)
    && !SpentByPool(s.mempool, o.op)
  }

  ghost predicate Anchored(r: Rules, s: State, outputs: seq<Output>) {
    && (forall i :: 0 <= i < |outputs| ==> OnChain(r, s, outputs[i]))
    && (forall i, j :: 0 <= i < j < |outputs| ==> outputs[i].op != outputs[j].op)
  }

  ghost predicate DistinctOps(cs: seq<Candidate>) {
    forall i, j :: 0 <= i < j < |cs| ==> cs[i].op != cs[j].op
  }

  lemma {:induction false} EligibleDistinct(env: Env, keys: seq<Key>, outputs: seq<Output>, excluded: set<OutPoint>)
    requires forall i, j :: 0 <= i < j < |outputs| ==> outputs[i].op != outputs[j].op
    ensures DistinctOps(Eligible(outputs, excluded))
  {
    if outputs != [] {
      var n := |outputs| - 1;
      var init := outputs[..n];
      EligibleDistinct(env, keys, init, excluded);
      var before := Eligible(init, excluded);
      forall i | 0 <= i < |before| ensures before[i].op != outputs[n].op {
        EligibleFrom(env, keys, init, excluded, before[i]);
        var k :| 0 <= k < |init| && init[k].op !in excluded && before[i] == Candidate(init[k].op, init[k].amount, init[k].key);
        assert init[k] == outputs[k];
      }
    }
  }

  lemma {:induction false} SubsetDistinct(cs: seq<Candidate>, t: seq<Candidate>)
    requires DistinctOps(cs) && multiset(t) <= multiset(cs)
    ensures DistinctOps(t)
  {
    forall i, j | 0 <= i < j < |t| ensures t[i].op != t[j].op {
      RepeatFree(cs, t[i]);
      OnceEach(t, i, j);
      assert t[i] in multiset(t) && t[j] in multiset(t);
      var a :| 0 <= a < |cs| && cs[a] == t[i];
      var b :| 0 <= b < |cs| && cs[b] == t[j];
      assert a < b ==> cs[a].op != cs[b].op;
      assert b < a ==> cs[b].op != cs[a].op;
    }
  }

  /** Each chosen candidate is a chain output owned by its key. */
  ghost predicate Backed(r: Rules, s: State, keys: seq<Key>, c: Candidate) {
    && c.op in s.utxo && s.utxo[c.op].value == c.amount && 0 <= c.key < |keys|
    && s.utxo[c.op].pkh == r.env.pkhOf(keys[c.key].pub)
    && (s.utxo[c.op].coinbase ==> s.tip.height + 1 - s.utxo[c.op].height >= r.p.coinbaseMaturity)
    && !SpentByPool(s.mempool, c.op)
  }

  lemma {:induction false} ChosenBacked(r: Rules, s: State, keys: seq<Key>, outputs: seq<Output>, excluded: set<OutPoint>, c: Candidate)
    requires Anchored(r, s, outputs) && AllConsistent(r.env, keys, outputs, excluded) && c in Eligible(outputs, excluded)
    ensures Backed(r, s, keys, c)
  {
    hide Eligible, SpentByPool;
    EligibleFrom(r.env, keys, outputs, excluded, c);
    var i :| 0 <= i < |outputs| && outputs[i].op !in excluded && c == Candidate(outputs[i].op, outputs[i].amount, outputs[i].key);
    assert OnChain(r, s, outputs[i]) && Consistent(r.env, keys, outputs[i]);
  }

  lemma {:induction false} SpentAmounts(r: Rules, s: State, keys: seq<Key>, chosen: seq<Candidate>, ins: seq<TxIn>, n: nat)
    requires n <= |chosen| == |ins| && (forall i :: 0 <= i < |chosen| ==> ins[i].prev == chosen[i].op && Backed(r, s, keys, chosen[i]))
    ensures SpendSum(s.utxo, ins, n) == Amounts(chosen[..n])
  {
    hide Amounts, SpentByPool;
    if n == 0 {
      NoAmounts(chosen);
    } else {
      SpentAmounts(r, s, keys, chosen, ins, n - 1);
      AmountsSnoc(chosen, n - 1);
    }
  }

  lemma {:induction false} InputsValid(r: Rules, s: State, sha: seq<Byte> -> Hash, keys: seq<Key>, chosen: seq<Candidate>, draft: Tx, i: nat)
    requires GoodKeys(r.env, keys) && DigestHashes(r.env, sha) && draft.ins == Drafted(chosen) && i < |chosen|
    requires Backed(r, s, keys, chosen[i]) && MoneyRange(chosen[i].amount)
    ensures SpendableBy(r.env, r.p.coinbaseMaturity, s.utxo, SignedTx(r.env, draft, KeysFor(keys, chosen)), i, s.tip.height + 1)
  {
    hide SpentByPool, DigestHashes, Drafted, KeysFor, GoodKey;
    var ks := KeysFor(keys, chosen);
    assert ks[i] == keys[chosen[i].key] && GoodKey(r.env, ks[i]);
    SignedVerifies(r.env, sha, draft, ks, i);
  }

  /** On the chain the snapshot was taken from, the prepared payment is admitted. */
  lemma {:induction false} PaymentAdmitted(r: Rules, s: State, clock: int, sha: seq<Byte> -> Hash, keys: seq<Key>, outputs: seq<Output>,
                                           to: Pkh, amount: int, fee: int, excluded: set<OutPoint>)
    requires UsableParams(r.p) && Inv(r, s, clock)
    requires GoodKeys(r.env, keys) && DigestHashes(r.env, sha) && Anchored(r, s, outputs)
    requires amount > 0 && fee >= 0 && PaymentPlan(r.env, keys, outputs, to, amount, fee, excluded).Ok?
    ensures var tx := PaymentPlan(r.env, keys, outputs, to, amount, fee, excluded).value.tx;
            && TxValid(r.env, r.p.coinbaseMaturity, s.utxo, tx, s.tip.height + 1)
            && Fee(s.utxo, tx) == fee
            && AcceptTx(r, s, tx).1 == if r.env.txId(tx) in s.mempool then TxKnown else Added
  {
    hide Ranked, Eligible, Cut, Amounts, TxBytes, Chosen, GoodKeys, DigestHashes, GoodOutputs, OutSum, SpendSum, AllConsistent, Outputs,
         Fee, TxValid, CheckTx, Backed, Paying, Ops, Conflicts, UsableParams, Inv;
    NoNullOutput(r, s, clock);
    var env, need := r.env, amount + fee;
    var p := PaymentPlan(env, keys, outputs, to, amount, fee, excluded).value;
    var chosen := Chosen(outputs, excluded, need);
    PaymentBalances(env, keys, outputs, to, amount, fee, excluded);
    ChosenFacts(env, keys, outputs, excluded, need);
    EligibleDistinct(env, keys, outputs, excluded);
    SubsetDistinct(Eligible(outputs, excluded), chosen);
    forall i | 0 <= i < |chosen| ensures Backed(r, s, keys, chosen[i]) {
      assert chosen[i] in multiset(chosen);
      ChosenBacked(r, s, keys, outputs, excluded, chosen[i]);
    }
    PayingSpendable(r, s, sha, keys, chosen, to, amount, fee);
    Admission(r, s, keys, chosen, p.tx, fee);
  }

  ghost predicate AllSpendable(r: Rules, s: State, tx: Tx, height: int) {
    forall i :: 0 <= i < |tx.ins| ==> SpendableBy(r.env, r.p.coinbaseMaturity, s.utxo, tx, i, height)
  }

  lemma {:induction false} PayingSpendable(r: Rules, s: State, sha: seq<Byte> -> Hash, keys: seq<Key>, chosen: seq<Candidate>, to: Pkh,
                                           amount: int, fee: int)
    requires GoodKeys(r.env, keys) && DigestHashes(r.env, sha) && PositiveAmounts(chosen)
    requires forall i :: 0 <= i < |chosen| ==> Backed(r, s, keys, chosen[i])
    ensures AllSpendable(r, s, Paying(r.env, keys, chosen, to, amount, fee), s.tip.height + 1)
  {
    hide GoodKeys, DigestHashes, Backed, SpendableBy, Drafted, KeysFor, Amounts, SignedTx;
    var outs := Outputs(to, amount, Amounts(chosen) - amount - fee, Home(r.env, keys));
    var height, tx := s.tip.height + 1, Paying(r.env, keys, chosen, to, amount, fee);
    forall i | 0 <= i < |chosen| ensures SpendableBy(r.env, r.p.coinbaseMaturity, s.utxo, tx, i, height) {
      InputsValid(r, s, sha, keys, chosen, Tx(1, Drafted(chosen), outs, []), i);
    }
  }

  lemma {:induction false} Admission(r: Rules, s: State, keys: seq<Key>, chosen: seq<Candidate>, tx: Tx, fee: int)
    requires OutPoint(ZERO_HASH, NULL_INDEX) !in s.utxo && DistinctOps(chosen) && |tx.ins| == |chosen| && fee >= 0
    requires forall i :: 0 <= i < |chosen| ==> tx.ins[i].prev == chosen[i].op && Backed(r, s, keys, chosen[i])
    requires AllSpendable(r, s, tx, s.tip.height + 1)
    requires GoodOutputs(tx.outs, |tx.outs|) && |tx.outs| > 0
    requires OutSum(tx.outs, |tx.outs|) == Amounts(chosen) - fee && Amounts(chosen) <= MAX_MONEY
    ensures TxValid(r.env, r.p.coinbaseMaturity, s.utxo, tx, s.tip.height + 1) && Fee(s.utxo, tx) == fee
    ensures AcceptTx(r, s, tx).1 == if r.env.txId(tx) in s.mempool then TxKnown else Added
  {
    hide SpendableBy, GoodOutputs, OutSum, SpendSum, Amounts, CheckTx;
    SpentAmounts(r, s, keys, chosen, tx.ins, |chosen|);
    assert chosen[..|chosen|] == chosen;
    assert |chosen| > 0 by { SomeOutput(tx.outs); NoChosen(chosen); }
    assert DistinctPrevs(tx.ins, |tx.ins|);
    var height := s.tip.height + 1;
    assert InputsOk(r.env, r.p.coinbaseMaturity, s.utxo, tx, |tx.ins|, height);
    assert TxValid(r.env, r.p.coinbaseMaturity, s.utxo, tx, height);
    CheckTxIff(r.env, r.p.coinbaseMaturity, s.utxo, tx, s.tip.height + 1);
    NotReserved(r, s, keys, chosen, tx);
  }

  lemma {:induction false} SomeOutput(outs: seq<TxOut>)
    requires |outs| > 0 && GoodOutputs(outs, |outs|)
    ensures OutSum(outs, |outs|) > 0
  {
    CheckOutputsIff(outs, |outs|);
  }

  lemma {:induction false} NoChosen(chosen: seq<Candidate>)
    ensures chosen == [] ==> Amounts(chosen) == 0
  {
  }

  lemma {:induction false} NotReserved(r: Rules, s: State, keys: seq<Key>, chosen: seq<Candidate>, tx: Tx)
    requires OutPoint(ZERO_HASH, NULL_INDEX) !in s.utxo && |tx.ins| == |chosen| > 0
    requires forall i :: 0 <= i < |chosen| ==> tx.ins[i].prev == chosen[i].op && Backed(r, s, keys, chosen[i])
    ensures !Conflicts(s.mempool, tx) && !tx.IsCoinbase()
  {
    assert Backed(r, s, keys, chosen[0]);
    forall id, i, j | id in s.mempool && 0 <= i < |s.mempool[id].ins| && 0 <= j < |tx.ins|
      ensures s.mempool[id].ins[i].prev != tx.ins[j].prev {
      assert Backed(r, s, keys, chosen[j]);
    }
  }
}
