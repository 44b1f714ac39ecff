/** Context-free block checks (core/chain.go, `checkBlockSanity`) as the loops that perform them. */
module BlockSanity {
  import opened Types
  import opened Money
  import opened Ledger

  /** Output checks shared by transactions, coinbases and block sanity. */
  method ScanOutputs(outs: seq<TxOut>) returns (res: Result<int, TxError>)
    ensures res == CheckOutputs(outs, |outs|)
  {
    var sum := 0;
    var i := 0;
    while i < |outs|
      invariant 0 <= i <= |outs|
      invariant CheckOutputs(outs, i) == Ok(sum)
    {
      var value := outs[i].value;
      var failure := None;
      if value < 0 {
        failure := Some(NegativeOutput);
      } else if value == 0 {
        failure := Some(ZeroOutput);
      } else if !MoneyRange(value) {
        failure := Some(OutputRange);
      } else {
        match CheckedAdd(sum, value)
        case Some(total) => sum := total;
        case None => failure := Some(OutputTotalRange);
      }
      if failure.Some? {
        OutputErrorSticks(outs, i + 1, |outs|);
        return Err(failure.value);
      }
      i := i + 1;
    }
    res := Ok(sum);
  }

  lemma {:induction false} OutputErrorSticks(outs: seq<TxOut>, k: nat, n: nat)
    requires k <= n <= |outs| && CheckOutputs(outs, k).Err?
    ensures CheckOutputs(outs, n) == CheckOutputs(outs, k)
  {
    if k < n {
      OutputErrorSticks(outs, k, n - 1);
    }
  }

  lemma {:induction false} SpentInsPrefix(txs: seq<Tx>, i: nat, n: nat)
    requires i <= n <= |txs|
    ensures |SpentIns(txs, i)| <= |SpentIns(txs, n)|
    ensures SpentIns(txs, n)[..|SpentIns(txs, i)|] == SpentIns(txs, i)
  {
    if i < n {
      SpentInsPrefix(txs, i, n - 1);
      assert n > 1 ==> SpentIns(txs, n)[..|SpentIns(txs, n - 1)|] == SpentIns(txs, n - 1);
    }
  }

  predicate AllDistinct(ins: seq<TxIn>) {
    DistinctPrevs(ins, |ins|)
  }

  function AllPrevs(ins: seq<TxIn>): set<OutPoint> {
    Prevs(ins, |ins|)
  }

  lemma {:induction false} PrefixDistinct(a: seq<TxIn>, b: seq<TxIn>)
    requires AllDistinct(b) && |a| <= |b| && b[..|a|] == a
    ensures AllDistinct(a)
  {
    forall i, j | 0 <= i < j < |a| ensures a[i].prev != a[j].prev {
      assert a[i] == b[i] && a[j] == b[j];
    }
  }

  lemma {:induction false} AppendDistinct(a: seq<TxIn>, input: TxIn)
    ensures AllPrevs(a + [input]) == AllPrevs(a) + {input.prev}
    ensures AllDistinct(a) ==> (AllDistinct(a + [input]) <==> input.prev !in AllPrevs(a))
  {
    var b := a + [input];
    assert b[|a|] == input;
    assert forall i :: 0 <= i < |a| ==> b[i] == a[i];
    forall op | op in AllPrevs(b) ensures op in AllPrevs(a) + {input.prev} {
      var i :| 0 <= i < |b| && b[i].prev == op;
    }
    forall op | op in AllPrevs(a) + {input.prev} ensures op in AllPrevs(b) {
      if op == input.prev {
        assert b[|a|].prev == op;
      } else {
        var i :| 0 <= i < |a| && a[i].prev == op;
        assert b[i].prev == op;
      }
    }
  }

  /** Mark one transaction's inputs as spent; false when one was already spent in the block. */
  method MarkSpent(prior: seq<TxIn>, ins: seq<TxIn>, spent: set<OutPoint>) returns (unspent: bool, spent': set<OutPoint>)
    requires spent == AllPrevs(prior) && AllDistinct(prior)
    ensures unspent <==> AllDistinct(prior + ins)
    ensures unspent ==> spent' == AllPrevs(prior + ins)
  {
    spent' := spent;
    var j := 0;
    assert prior + ins[..0] == prior;
    while j < |ins|
      invariant 0 <= j <= |ins|
      invariant spent' == AllPrevs(prior + ins[..j]) && AllDistinct(prior + ins[..j])
    {
      AppendDistinct(prior + ins[..j], ins[j]);
      assert prior + ins[..j] + [ins[j]] == prior + ins[..j + 1];
      if ins[j].prev in spent' {
        assert (prior + ins)[..|prior + ins[..j + 1]|] == prior + ins[..j + 1];
        if AllDistinct(prior + ins) {
          PrefixDistinct(prior + ins[..j + 1], prior + ins);
        }
        return false, spent';
      }
      spent' := spent' + {ins[j].prev};
      j := j + 1;
    }
    assert ins[..j] == ins;
    unspent := true;
  }

  /** What the sanity scan has established about the first `n` transactions. */
  ghost predicate SanePrefix(env: Env, txs: seq<Tx>, n: nat)
    requires n <= |txs|
  {
    && (forall i :: 0 < i < n ==> !txs[i].IsCoinbase())
    && (forall i :: 0 <= i < n ==> |txs[i].ins| > 0 && |txs[i].outs| > 0 && GoodOutputs(txs[i].outs, |txs[i].outs|))
    && (forall i, j :: 0 <= i < j < n ==> env.txId(txs[i]) != env.txId(txs[j]))
    && AllDistinct(SpentIns(txs, n))
  }

  lemma {:induction false} SaneHasSanePrefix(env: Env, txs: seq<Tx>, n: nat)
    requires SaneTxs(env, txs) && n <= |txs|
    ensures SanePrefix(env, txs, n)
  {
    hide GoodOutputs;
    SpentInsPrefix(txs, n, |txs|);
    PrefixDistinct(SpentIns(txs, n), SpentIns(txs, |txs|));
  }

  /** One transaction of the sanity scan. */
  method ScanTx(env: Env, txs: seq<Tx>, i: nat, ids: set<Hash>, spent: set<OutPoint>)
    returns (ok: bool, spent': set<OutPoint>)
    requires i < |txs| && SanePrefix(env, txs, i)
    requires ids == set j | 0 <= j < i :: env.txId(txs[j])
    requires spent == AllPrevs(SpentIns(txs, i))
    ensures ok <==> SanePrefix(env, txs, i + 1)
    ensures ok ==> spent' == AllPrevs(SpentIns(txs, i + 1))
  {
    hide GoodOutputs, AllDistinct, AllPrevs;
    var tx := txs[i];
    spent' := spent;
    if i > 0 && tx.IsCoinbase() {
      return false, spent';
    }
    if |tx.ins| == 0 || |tx.outs| == 0 {
      return false, spent';
    }
    if env.txId(tx) in ids {
      return false, spent';
    }
    if i > 0 {
      ok, spent' := MarkSpent(SpentIns(txs, i), tx.ins, spent);
      if !ok {
        return;
      }
    }
    var outputs := ScanOutputs(tx.outs);
    CheckOutputsIff(tx.outs, |tx.outs|);
    ok := outputs.Ok?;
  }

  lemma {:induction false} SaneShape(env: Env, txs: seq<Tx>)
    ensures SaneTxs(env, txs) ==> |txs| > 0 && txs[0].IsCoinbase()
    ensures SanePrefix(env, txs, |txs|) && |txs| > 0 && txs[0].IsCoinbase() ==> SaneTxs(env, txs)
    ensures SanePrefix(env, txs, 0) && SpentIns(txs, 0) == []
  {
    hide GoodOutputs;
  }

  method CheckBlockSanity(env: Env, txs: seq<Tx>) returns (ok: bool)
    ensures ok <==> SaneTxs(env, txs)
  {
    hide GoodOutputs, SaneTxs, SanePrefix, SpentIns;
    SaneShape(env, txs);
    if |txs| == 0 || !txs[0].IsCoinbase() {
      return false;
    }
    var ids: set<Hash> := {};
    var spent: set<OutPoint> := {};
    var i := 0;
    while i < |txs|
      invariant 0 <= i <= |txs| && SanePrefix(env, txs, i)
      invariant ids == set j | 0 <= j < i :: env.txId(txs[j])
      invariant spent == AllPrevs(SpentIns(txs, i))
    {
      ok, spent := ScanTx(env, txs, i, ids, spent);
      if !ok {
        if SaneTxs(env, txs) {
          SaneHasSanePrefix(env, txs, i + 1);
        }
        return false;
      }
      ids := ids + {env.txId(txs[i])};
      i := i + 1;
    }
    ok := true;
  }
}
