/** Where every coin on a valid chain comes from, and what every spend had to show (core/chain.go). */
module Provenance {
  import opened Types
  import opened Money
  import opened Ledger
  import opened Params
  import opened Difficulty
  import opened Consensus
  import opened Supply
  import opened Invariant
  import opened Reachable

  // ---- origins ----

  /** The entry is output `op.idx` of transaction `t` of the block at height `g`; only the first transaction of a block is a
      coinbase. */
  ghost predicate Origin(env: Env, blocks: seq<Block>, g: int, t: int, op: OutPoint, e: Entry) {
    && 0 <= g < |blocks| && 0 <= t < |blocks[g].txs|
    && var tx := blocks[g].txs[t];
    && env.txId(tx) == op.txId && op.idx < |tx.outs|
    && e.value == tx.outs[op.idx].value && e.pkh == tx.outs[op.idx].pkh
    && e.height == g && (e.coinbase <==> t == 0)
  }

  /** Made before transaction `i` of the block at height `h`: in an earlier block, or earlier in that block and not by its
      coinbase. */
  ghost predicate Before(g: int, t: int, h: int, i: int) {
    g < h || (g == h && 0 < t < i)
  }

  ghost predicate Born(env: Env, blocks: seq<Block>, h: int, i: int, op: OutPoint, e: Entry) {
    exists g, t :: Origin(env, blocks, g, t, op, e) && Before(g, t, h, i)
  }

  ghost predicate AllBorn(env: Env, blocks: seq<Block>, h: int, i: int, u: Utxo) {
    forall op :: op in u ==> Born(env, blocks, h, i, op, u[op])
  }

  lemma {:induction false} RemovedSubset(u: Utxo, ins: seq<TxIn>, n: nat)
    requires n <= |ins|
    ensures forall op :: op in RemoveInputs(u, ins, n) ==> op in u && RemoveInputs(u, ins, n)[op] == u[op]
  {
    if n > 0 {
      RemovedSubset(u, ins, n - 1);
    }
  }

  lemma {:induction false} AddedFrom(u: Utxo, id: Hash, outs: seq<TxOut>, n: nat, height: int, coinbase: bool)
    requires n <= |outs|
    ensures var v := AddOutputs(u, id, outs, n, height, coinbase);
            forall op :: op in v ==>
              || (op in u && v[op] == u[op])
              || (op.txId == id && op.idx < n && v[op] == Entry(outs[op.idx].value, outs[op.idx].pkh, height, coinbase))
  {
    if n > 0 {
      AddedFrom(u, id, outs, n - 1, height, coinbase);
    }
  }

  lemma {:induction false} SpendFrom(env: Env, u: Utxo, tx: Tx, height: int, coinbase: bool)
    ensures var v := SpendAndCreate(env, u, tx, height, coinbase);
            forall op :: op in v ==>
              || (op in u && v[op] == u[op])
              || (op.txId == env.txId(tx) && op.idx < |tx.outs|
                  && v[op] == Entry(tx.outs[op.idx].value, tx.outs[op.idx].pkh, height, coinbase))
  {
    hide AddOutputs, RemoveInputs;
    RemovedSubset(u, tx.ins, |tx.ins|);
    AddedFrom(if coinbase then u else RemoveInputs(u, tx.ins, |tx.ins|), env.txId(tx), tx.outs, |tx.outs|, height, coinbase);
  }

  lemma {:induction false} BornLater(env: Env, blocks: seq<Block>, h: int, i: int, h': int, i': int, op: OutPoint, e: Entry)
    requires Born(env, blocks, h, i, op, e) && (h < h' || (h == h' && i <= i'))
    ensures Born(env, blocks, h', i', op, e)
  {
    hide Origin;
    var g, t :| Origin(env, blocks, g, t, op, e) && Before(g, t, h, i);
    assert Before(g, t, h', i');
  }

  /** A transaction adds only its own outputs to coins that have an origin already. */
  lemma {:induction false} SpendBorn(env: Env, blocks: seq<Block>, h: nat, t: nat, u: Utxo, h': int, i': int, i: int)
    requires h < |blocks| && t < |blocks[h].txs| && AllBorn(env, blocks, h, i, u)
    requires Before(h, t, h', i') && (h < h' || (h == h' && i <= i'))
    ensures AllBorn(env, blocks, h', i', SpendAndCreate(env, u, blocks[h].txs[t], h, t == 0))
  {
    hide SpendAndCreate, Born;
    var tx := blocks[h].txs[t];
    var v := SpendAndCreate(env, u, tx, h, t == 0);
    SpendFrom(env, u, tx, h, t == 0);
    forall op | op in v ensures Born(env, blocks, h', i', op, v[op]) {
      if op in u && v[op] == u[op] {
        BornLater(env, blocks, h, i, h', i', op, u[op]);
      } else {
        BornHere(env, blocks, h, t, h', i', op, v[op]);
      }
    }
  }

  lemma {:induction false} BornHere(env: Env, blocks: seq<Block>, h: nat, t: nat, h': int, i': int, op: OutPoint, e: Entry)
    requires Origin(env, blocks, h, t, op, e) && Before(h, t, h', i')
    ensures Born(env, blocks, h', i', op, e)
  {
  }

  lemma {:induction false} TxsBorn(env: Env, maturity: int, blocks: seq<Block>, h: nat, u: Utxo, n: nat)
    requires h < |blocks| && 1 <= n <= |blocks[h].txs| && AllBorn(env, blocks, h, 1, u)
    requires ApplyTxs(env, maturity, u, blocks[h].txs, n, h).Ok?
    ensures AllBorn(env, blocks, h, n, ApplyTxs(env, maturity, u, blocks[h].txs, n, h).value.utxo)
  {
    hide AllBorn, CheckTx, SpendAndCreate;
    if n > 1 {
      TxsBorn(env, maturity, blocks, h, u, n - 1);
      SpendBorn(env, blocks, h, n - 1, ApplyTxs(env, maturity, u, blocks[h].txs, n - 1, h).value.utxo, h, n, n - 1);
    }
  }

  lemma {:induction false} BlockBorn(env: Env, maturity: int, blocks: seq<Block>, h: nat, u: Utxo)
    requires h < |blocks| && |blocks[h].txs| > 0 && AllBorn(env, blocks, h, 1, u)
    requires ApplyBlock(env, maturity, u, blocks[h], h).Ok?
    ensures AllBorn(env, blocks, h + 1, 1, ApplyBlock(env, maturity, u, blocks[h], h).value)
  {
    hide AllBorn, ApplyTxs, SpendAndCreate, CheckOutputs;
    var n := |blocks[h].txs|;
    TxsBorn(env, maturity, blocks, h, u, n);
    SpendBorn(env, blocks, h, 0, ApplyTxs(env, maturity, u, blocks[h].txs, n, h).value.utxo, h + 1, 1, n);
  }

  // ---- replays, block by block ----

  lemma {:induction false} ReplayStep(env: Env, maturity: int, blocks: seq<Block>, h: nat)
    requires h < |blocks| && Replay(env, maturity, blocks[..h + 1]).Ok?
    ensures Replay(env, maturity, blocks[..h]).Ok?
    ensures |blocks[h].txs| > 0 && SaneTxs(env, blocks[h].txs)
    ensures Replay(env, maturity, blocks[..h + 1])
         == ApplyBlock(env, maturity, Replay(env, maturity, blocks[..h]).value, blocks[h], h)
  {
    hide SaneTxs, ApplyBlock;
    assert blocks[..h + 1][..h] == blocks[..h];
    SaneNonempty(env, blocks[h].txs);
  }

  lemma {:induction false} PrefixReplayOk(env: Env, maturity: int, blocks: seq<Block>, h: nat)
    requires h <= |blocks| && Replay(env, maturity, blocks).Ok?
    ensures Replay(env, maturity, blocks[..h]).Ok?
    decreases |blocks| - h
  {
    hide Replay;
    if h == |blocks| {
      assert blocks[..h] == blocks;
    } else {
      PrefixReplayOk(env, maturity, blocks, h + 1);
      ReplayStep(env, maturity, blocks, h);
    }
  }

  /** Every unspent output of a chain that replays is an output of a transaction on it, with that output's value and owner, its
      block's height, and the coinbase mark exactly when its transaction is a block's first. */
  lemma {:induction false} CoinsHaveOrigins(env: Env, maturity: int, blocks: seq<Block>, h: nat)
    requires h <= |blocks| && Replay(env, maturity, blocks).Ok?
    ensures Replay(env, maturity, blocks[..h]).Ok?
    ensures AllBorn(env, blocks, h, 1, Replay(env, maturity, blocks[..h]).value)
  {
    hide AllBorn, ApplyBlock, SaneTxs;
    PrefixReplayOk(env, maturity, blocks, h);
    if h == 0 {
      NothingBorn(env, blocks);
    } else {
      hide Replay;
      CoinsHaveOrigins(env, maturity, blocks, h - 1);
      ReplayStep(env, maturity, blocks, h - 1);
      BlockBorn(env, maturity, blocks, h - 1, Replay(env, maturity, blocks[..h - 1]).value);
    }
  }

  lemma {:induction false} NothingBorn(env: Env, blocks: seq<Block>)
    ensures AllBorn(env, blocks, 0, 1, map[])
  {
  }

  // ---- spends ----

  lemma {:induction false} EarlierTxs(env: Env, maturity: int, u: Utxo, txs: seq<Tx>, n: nat, i: nat, height: int)
    requires 1 <= i <= n <= |txs| && ApplyTxs(env, maturity, u, txs, n, height).Ok?
    ensures ApplyTxs(env, maturity, u, txs, i, height).Ok?
    ensures i < n ==> CheckTx(env, maturity, ApplyTxs(env, maturity, u, txs, i, height).value.utxo, txs[i], height).Ok?
    decreases n
  {
    hide CheckTx, SpendAndCreate;
    if i < n {
      EarlierTxs(env, maturity, u, txs, n - 1, i, height);
    }
  }

  /** The coins transaction `i` of block `h` found. */
  ghost function CoinsBefore(env: Env, maturity: int, blocks: seq<Block>, h: nat, i: nat): Utxo
    requires h < |blocks| && 1 <= i < |blocks[h].txs| && Replay(env, maturity, blocks).Ok?
  {
    CoinsFound(env, maturity, blocks, h, i);
    ApplyTxs(env, maturity, Replay(env, maturity, blocks[..h]).value, blocks[h].txs, i, h).value.utxo
  }

  lemma {:induction false} CoinsFound(env: Env, maturity: int, blocks: seq<Block>, h: nat, i: nat)
    requires h < |blocks| && 1 <= i < |blocks[h].txs| && Replay(env, maturity, blocks).Ok?
    ensures Replay(env, maturity, blocks[..h]).Ok?
    ensures ApplyTxs(env, maturity, Replay(env, maturity, blocks[..h]).value, blocks[h].txs, i, h).Ok?
    ensures CheckTx(env, maturity, ApplyTxs(env, maturity, Replay(env, maturity, blocks[..h]).value, blocks[h].txs, i, h).value.utxo,
                    blocks[h].txs[i], h).Ok?
    ensures AllBorn(env, blocks, h, i, ApplyTxs(env, maturity, Replay(env, maturity, blocks[..h]).value, blocks[h].txs, i, h).value.utxo)
  {
    hide Replay, CheckTx, SpendAndCreate, SaneTxs, AllBorn, ApplyTxs, CheckOutputs;
    PrefixReplayOk(env, maturity, blocks, h + 1);
    ReplayStep(env, maturity, blocks, h);
    EarlierTxs(env, maturity, Replay(env, maturity, blocks[..h]).value, blocks[h].txs, |blocks[h].txs|, i, h);
    CoinsHaveOrigins(env, maturity, blocks, h);
    TxsBorn(env, maturity, blocks, h, Replay(env, maturity, blocks[..h]).value, i);
  }

  /** The right to spend: a 32-byte key that hashes to the owner and a signature by it over the whole transaction. */
  ghost predicate Authorised(env: Env, tx: Tx, j: nat, owner: Pkh)
    requires j < |tx.ins|
  {
    && |tx.ins[j].pubKey| == 32 && env.pkhOf(tx.ins[j].pubKey) == owner
    && env.verify(tx.ins[j].pubKey, env.sigDigest(tx), tx.ins[j].sig)
  }

  /** Every input of every transaction on a chain that replays spends an output made earlier on that chain and not spent since,
      with its owner's key and signature, and if a block's coinbase made it, only `maturity` blocks later. */
  lemma {:induction false} SpendIsAuthorised(env: Env, maturity: int, blocks: seq<Block>, h: nat, i: nat, j: nat)
    returns (g: nat, t: nat)
    requires h < |blocks| && 1 <= i < |blocks[h].txs| && j < |blocks[h].txs[i].ins| && Replay(env, maturity, blocks).Ok?
    ensures var tx := blocks[h].txs[i];
            var op := tx.ins[j].prev;
            && op in CoinsBefore(env, maturity, blocks, h, i)
            && g < |blocks| && t < |blocks[g].txs| && (g < h || (g == h && 0 < t < i))
            && env.txId(blocks[g].txs[t]) == op.txId && op.idx < |blocks[g].txs[t].outs|
            && Authorised(env, tx, j, blocks[g].txs[t].outs[op.idx].pkh)
            && (t == 0 ==> h - g >= maturity)
  {
    hide Replay, CheckTx, ApplyTxs, TxValid;
    CoinsFound(env, maturity, blocks, h, i);
    var tx, u := blocks[h].txs[i], CoinsBefore(env, maturity, blocks, h, i);
    CheckTxIff(env, maturity, u, tx, h);
    InputShown(env, maturity, u, tx, j, h);
    var op := tx.ins[j].prev;
    assert Born(env, blocks, h, i, op, u[op]);
    var g', t' :| Origin(env, blocks, g', t', op, u[op]) && Before(g', t', h, i);
    g, t := g', t';
  }

  lemma {:induction false} InputShown(env: Env, maturity: int, u: Utxo, tx: Tx, j: nat, height: int)
    requires TxValid(env, maturity, u, tx, height) && j < |tx.ins|
    ensures tx.ins[j].prev in u && Authorised(env, tx, j, u[tx.ins[j].prev].pkh)
    ensures u[tx.ins[j].prev].coinbase ==> height - u[tx.ins[j].prev].height >= maturity
  {
    hide OutSum, SpendSum;
    assert SpendableBy(env, maturity, u, tx, j, height);
  }

  // ---- value ----

  /** What transactions 1..n-1 of block `h` leave to the miner, each judged by the coins it found. */
  ghost function FeesLeft(env: Env, maturity: int, blocks: seq<Block>, h: nat, n: nat): int
    requires h < |blocks| && 1 <= n <= |blocks[h].txs| && Replay(env, maturity, blocks).Ok?
  {
    if n == 1 then 0
    else FeesLeft(env, maturity, blocks, h, n - 1) + Fee(CoinsBefore(env, maturity, blocks, h, n - 1), blocks[h].txs[n - 1])
  }

  lemma {:induction false} FeesAreLeft(env: Env, maturity: int, blocks: seq<Block>, h: nat, n: nat)
    requires h < |blocks| && 1 <= n <= |blocks[h].txs| && Replay(env, maturity, blocks).Ok?
    requires Replay(env, maturity, blocks[..h]).Ok?
    requires ApplyTxs(env, maturity, Replay(env, maturity, blocks[..h]).value, blocks[h].txs, n, h).Ok?
    ensures ApplyTxs(env, maturity, Replay(env, maturity, blocks[..h]).value, blocks[h].txs, n, h).value.fees
         == FeesLeft(env, maturity, blocks, h, n)
  {
    hide Replay, CheckTx, SpendAndCreate, TxValid;
    if n > 1 {
      FeesAreLeft(env, maturity, blocks, h, n - 1);
      var u := CoinsBefore(env, maturity, blocks, h, n - 1);
      CheckTxIff(env, maturity, u, blocks[h].txs[n - 1], h);
    }
  }

  /** No transaction on a chain that replays pays out more than it takes in, and no coinbase more than the subsidy of its height
      plus what the other transactions of its block leave. */
  lemma {:induction false} NothingFromNothing(env: Env, maturity: int, blocks: seq<Block>, h: nat)
    requires h < |blocks| && Replay(env, maturity, blocks).Ok?
    ensures var txs := blocks[h].txs;
            && |txs| > 0
            && (forall i :: 1 <= i < |txs| ==>
                  OutSum(txs[i].outs, |txs[i].outs|) <= SpendSum(CoinsBefore(env, maturity, blocks, h, i), txs[i].ins, |txs[i].ins|))
            && OutSum(txs[0].outs, |txs[0].outs|) <= SubsidyAt(h) + FeesLeft(env, maturity, blocks, h, |txs|)
  {
    hide Replay, CheckTx, ApplyTxs, TxValid, SaneTxs, CoinsBefore, CheckOutputs, SubsidyAt;
    PrefixReplayOk(env, maturity, blocks, h + 1);
    ReplayStep(env, maturity, blocks, h);
    var txs := blocks[h].txs;
    forall i | 1 <= i < |txs|
      ensures OutSum(txs[i].outs, |txs[i].outs|) <= SpendSum(CoinsBefore(env, maturity, blocks, h, i), txs[i].ins, |txs[i].ins|) {
      NoInflation(env, maturity, blocks, h, i);
    }
    FeesAreLeft(env, maturity, blocks, h, |txs|);
    CheckOutputsIff(txs[0].outs, |txs[0].outs|);
  }

  lemma {:induction false} NoInflation(env: Env, maturity: int, blocks: seq<Block>, h: nat, i: nat)
    requires h < |blocks| && 1 <= i < |blocks[h].txs| && Replay(env, maturity, blocks).Ok?
    ensures var tx := blocks[h].txs[i];
            OutSum(tx.outs, |tx.outs|) <= SpendSum(CoinsBefore(env, maturity, blocks, h, i), tx.ins, |tx.ins|)
  {
    hide Replay, CheckTx, ApplyTxs, AllBorn;
    CoinsFound(env, maturity, blocks, h, i);
    CheckTxIff(env, maturity, CoinsBefore(env, maturity, blocks, h, i), blocks[h].txs[i], h);
  }

  /** All of it holds on every branch a reachable node has indexed, the main chain and side branches alike. */
  lemma {:induction false} IndexedSpendIsAuthorised(r: Rules, s: State, id: Hash, h: nat, i: nat, j: nat) returns (g: nat, t: nat)
    requires UsableParams(r.p) && Reachable.Reachable(r, s) && id in s.index && h <= s.index[id].height
    ensures Linked(s.index)
    ensures var blocks := Blocks(Branch(s.index, s.index[id]));
            1 <= i < |blocks[h].txs| && j < |blocks[h].txs[i].ins| ==>
              var tx := blocks[h].txs[i];
              && g < |blocks| && t < |blocks[g].txs| && (g < h || (g == h && 0 < t < i))
              && r.env.txId(blocks[g].txs[t]) == tx.ins[j].prev.txId && tx.ins[j].prev.idx < |blocks[g].txs[t].outs|
              && Authorised(r.env, tx, j, blocks[g].txs[t].outs[tx.ins[j].prev.idx].pkh)
              && (t == 0 ==> h - g >= r.p.coinbaseMaturity)
  {
    hide Reachable.Reachable, UsableParams, EntryOk, MempoolOk, TipOk, Replay, Branch, Blocks, Authorised;
    var clock := ReachableInv(r, s);
    IndexedReplays(r, s.index, id, clock);
    var blocks := Blocks(Branch(s.index, s.index[id]));
    g, t := 0, 0;
    if 1 <= i < |blocks[h].txs| && j < |blocks[h].txs[i].ins| {
      g, t := SpendIsAuthorised(r.env, r.p.coinbaseMaturity, blocks, h, i, j);
    }
  }
}
