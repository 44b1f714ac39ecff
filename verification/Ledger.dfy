/** Contextual transaction and block validation against a UTXO set (core/chain.go), as functions on values. */
module Ledger {
  import opened Types
  import opened Money

  /** Why a transaction or a block's economics are refused. */
  datatype TxError =
    | EmptyInsOrOuts | DuplicateInput | InputMissing | InputValueRange | CoinbaseImmature
    | BadPubKeySize | WrongOwner | BadSignature | InputTotalRange
    | NegativeOutput | ZeroOutput | OutputRange | OutputTotalRange
    | OutputsExceedInputs | FeeRange
    | AggregateFeeRange | AllowedRange | CoinbaseTooLarge
    | InsaneBlock

  /** Outpoints named by the first `n` inputs. */
  function Prevs(ins: seq<TxIn>, n: nat): set<OutPoint>
    requires n <= |ins|
  {
    set i | 0 <= i < n :: ins[i].prev
  }

  predicate DistinctPrevs(ins: seq<TxIn>, n: nat)
    requires n <= |ins|
  {
    forall i, j :: 0 <= i < j < n ==> ins[i].prev != ins[j].prev
  }

  function OutSum(outs: seq<TxOut>, n: nat): int
    requires n <= |outs|
  {
    if n == 0 then 0 else OutSum(outs, n - 1) + outs[n - 1].value
  }

  function ValueAt(utxo: Utxo, op: OutPoint): int {
    if op in utxo then utxo[op].value else 0
  }

  /** Total of the entries the first `n` inputs name. */
  function SpendSum(utxo: Utxo, ins: seq<TxIn>, n: nat): int
    requires n <= |ins|
  {
    if n == 0 then 0 else SpendSum(utxo, ins, n - 1) + ValueAt(utxo, ins[n - 1].prev)
  }

  /** The per-input checks of `checkTxLocked` after the duplicate and presence checks. */
  function InputError(env: Env, maturity: int, entry: Entry, tx: Tx, i: nat, height: int): Option<TxError>
    requires i < |tx.ins|
  {
    if !MoneyRange(entry.value) then Some(InputValueRange)
    else if entry.coinbase && height - entry.height < maturity then Some(CoinbaseImmature)
    else if |tx.ins[i].pubKey| != 32 then Some(BadPubKeySize)
    else if env.pkhOf(tx.ins[i].pubKey) != entry.pkh then Some(WrongOwner)
    else if !env.verify(tx.ins[i].pubKey, env.sigDigest(tx), tx.ins[i].sig) then Some(BadSignature)
    else None
  }

  /** Scan of the first `n` inputs in order: their total, or the first error met. */
  function CheckInputs(env: Env, maturity: int, utxo: Utxo, tx: Tx, n: nat, height: int): Result<int, TxError>
    requires n <= |tx.ins|
  {
    if n == 0 then Ok(0)
    else
      match CheckInputs(env, maturity, utxo, tx, n - 1, height)
      case Err(e) => Err(e)
      case Ok(sum) =>
        var prev := tx.ins[n - 1].prev;
        if prev in Prevs(tx.ins, n - 1) then Err(DuplicateInput)
        else if prev !in utxo then Err(InputMissing)
        else match InputError(env, maturity, utxo[prev], tx, n - 1, height)
             case Some(e) => Err(e)
             case None => match CheckedAdd(sum, utxo[prev].value)
                          case Some(total) => Ok(total)
                          case None => Err(InputTotalRange)
  }

  /** Scan of the first `n` outputs in order. */
  function CheckOutputs(outs: seq<TxOut>, n: nat): Result<int, TxError>
    requires n <= |outs|
  {
    if n == 0 then Ok(0)
    else
      match CheckOutputs(outs, n - 1)
      case Err(e) => Err(e)
      case Ok(sum) =>
        var value := outs[n - 1].value;
        if value < 0 then Err(NegativeOutput)
        else if value == 0 then Err(ZeroOutput)
        else if !MoneyRange(value) then Err(OutputRange)
        else match CheckedAdd(sum, value)
             case Some(total) => Ok(total)
             case None => Err(OutputTotalRange)
  }

  /** `checkTxLocked`: the fee, or the first error. */
  function CheckTx(env: Env, maturity: int, utxo: Utxo, tx: Tx, height: int): Result<int, TxError> {
    if |tx.ins| == 0 || |tx.outs| == 0 then Err(EmptyInsOrOuts)
    else match CheckInputs(env, maturity, utxo, tx, |tx.ins|, height)
         case Err(e) => Err(e)
         case Ok(inSum) =>
           match CheckOutputs(tx.outs, |tx.outs|)
           case Err(e) => Err(e)
           case Ok(outSum) =>
             if outSum > inSum then Err(OutputsExceedInputs)
             else if !MoneyRange(inSum - outSum) then Err(FeeRange)
             else Ok(inSum - outSum)
  }

  // ---- what the scans decide, said without an order of evaluation ----

  predicate SpendableBy(env: Env, maturity: int, utxo: Utxo, tx: Tx, i: nat, height: int)
    requires i < |tx.ins|
  {
    var input := tx.ins[i];
    && input.prev in utxo
    && var entry := utxo[input.prev];
    && MoneyRange(entry.value)
    && (entry.coinbase ==> height - entry.height >= maturity)
    && |input.pubKey| == 32
    && env.pkhOf(input.pubKey) == entry.pkh
    && env.verify(input.pubKey, env.sigDigest(tx), input.sig)
  }

  predicate GoodOutputs(outs: seq<TxOut>, n: nat)
    requires n <= |outs|
  {
    (forall i :: 0 <= i < n ==> 1 <= outs[i].value <= MAX_MONEY) && OutSum(outs, n) <= MAX_MONEY
  }

  predicate InputsOk(env: Env, maturity: int, utxo: Utxo, tx: Tx, n: nat, height: int)
    requires n <= |tx.ins|
  {
    && DistinctPrevs(tx.ins, n)
    && (forall i :: 0 <= i < n ==> SpendableBy(env, maturity, utxo, tx, i, height))
    && SpendSum(utxo, tx.ins, n) <= MAX_MONEY
  }

  /** A transaction may confirm at `height`: distinct owned mature inputs, positive outputs, no inflation. */
  predicate TxValid(env: Env, maturity: int, utxo: Utxo, tx: Tx, height: int) {
    && |tx.ins| > 0 && |tx.outs| > 0
    && InputsOk(env, maturity, utxo, tx, |tx.ins|, height)
    && GoodOutputs(tx.outs, |tx.outs|)
    && OutSum(tx.outs, |tx.outs|) <= SpendSum(utxo, tx.ins, |tx.ins|)
  }

  function Fee(utxo: Utxo, tx: Tx): int {
    SpendSum(utxo, tx.ins, |tx.ins|) - OutSum(tx.outs, |tx.outs|)
  }

  lemma {:induction false} SpendSumNonneg(env: Env, maturity: int, utxo: Utxo, tx: Tx, n: nat, height: int)
    requires n <= |tx.ins|
    requires forall i :: 0 <= i < n ==> SpendableBy(env, maturity, utxo, tx, i, height)
    ensures SpendSum(utxo, tx.ins, n) >= 0
  {
    if n > 0 {
      SpendSumNonneg(env, maturity, utxo, tx, n - 1, height);
      assert SpendableBy(env, maturity, utxo, tx, n - 1, height);
    }
  }

  lemma {:induction false} CheckInputsIff(env: Env, maturity: int, utxo: Utxo, tx: Tx, n: nat, height: int)
    requires n <= |tx.ins|
    ensures CheckInputs(env, maturity, utxo, tx, n, height).Ok? <==> InputsOk(env, maturity, utxo, tx, n, height)
    ensures InputsOk(env, maturity, utxo, tx, n, height) ==>
              CheckInputs(env, maturity, utxo, tx, n, height).value == SpendSum(utxo, tx.ins, n)
  {
    if n > 0 {
      if InputsOk(env, maturity, utxo, tx, n, height) {
        assert SpendableBy(env, maturity, utxo, tx, n - 1, height);
      }
      CheckInputsIff(env, maturity, utxo, tx, n - 1, height);
      if InputsOk(env, maturity, utxo, tx, n - 1, height) {
        SpendSumNonneg(env, maturity, utxo, tx, n - 1, height);
        var prev := tx.ins[n - 1].prev;
        assert DistinctPrevs(tx.ins, n) <==> prev !in Prevs(tx.ins, n - 1);
        assert SpendableBy(env, maturity, utxo, tx, n - 1, height) <==>
               prev in utxo && InputError(env, maturity, utxo[prev], tx, n - 1, height).None?;
      }
    }
  }

  lemma {:induction false} CheckOutputsIff(outs: seq<TxOut>, n: nat)
    requires n <= |outs|
    ensures CheckOutputs(outs, n).Ok? <==> GoodOutputs(outs, n)
    ensures GoodOutputs(outs, n) ==> CheckOutputs(outs, n).value == OutSum(outs, n) && OutSum(outs, n) >= n
  {
    if n > 0 {
      CheckOutputsIff(outs, n - 1);
    }
  }

  /** The ordered scan accepts exactly the valid transactions, and returns what they leave to the miner. */
  lemma {:induction false} CheckTxIff(env: Env, maturity: int, utxo: Utxo, tx: Tx, height: int)
    ensures CheckTx(env, maturity, utxo, tx, height).Ok? <==> TxValid(env, maturity, utxo, tx, height)
    ensures TxValid(env, maturity, utxo, tx, height) ==>
              CheckTx(env, maturity, utxo, tx, height).value == Fee(utxo, tx)
  {
    CheckInputsIff(env, maturity, utxo, tx, |tx.ins|, height);
    CheckOutputsIff(tx.outs, |tx.outs|);
  }

  // ---- applying transactions and blocks ----

  function RemoveInputs(utxo: Utxo, ins: seq<TxIn>, n: nat): Utxo
    requires n <= |ins|
  {
    if n == 0 then utxo else RemoveInputs(utxo, ins, n - 1) - {ins[n - 1].prev}
  }

  function AddOutputs(utxo: Utxo, id: Hash, outs: seq<TxOut>, n: nat, height: int, coinbase: bool): Utxo
    requires n <= |outs|
  {
    if n == 0 then utxo
    else AddOutputs(utxo, id, outs, n - 1, height, coinbase)
           [OutPoint(id, n - 1) := Entry(outs[n - 1].value, outs[n - 1].pkh, height, coinbase)]
  }

  /** `spendAndCreate`. */
  function SpendAndCreate(env: Env, utxo: Utxo, tx: Tx, height: int, coinbase: bool): Utxo {
    var kept := if coinbase then utxo else RemoveInputs(utxo, tx.ins, |tx.ins|);
    AddOutputs(kept, env.txId(tx), tx.outs, |tx.outs|, height, coinbase)
  }

  datatype Applied = Applied(utxo: Utxo, fees: int)

  /** Validate and apply the non-coinbase transactions before position `n`. */
  function ApplyTxs(env: Env, maturity: int, utxo: Utxo, txs: seq<Tx>, n: nat, height: int): Result<Applied, TxError>
    requires n <= |txs|
  {
    if n <= 1 then Ok(Applied(utxo, 0))
    else
      match ApplyTxs(env, maturity, utxo, txs, n - 1, height)
      case Err(e) => Err(e)
      case Ok(sofar) =>
        match CheckTx(env, maturity, sofar.utxo, txs[n - 1], height)
        case Err(e) => Err(e)
        case Ok(fee) =>
          match CheckedAdd(sofar.fees, fee)
          case None => Err(AggregateFeeRange)
          case Some(fees) => Ok(Applied(SpendAndCreate(env, sofar.utxo, txs[n - 1], height, false), fees))
  }

  /** `validateAndApplyLocked`: the new UTXO set, or why the block is refused. */
  function ApplyBlock(env: Env, maturity: int, utxo: Utxo, b: Block, height: nat): Result<Utxo, TxError>
    requires |b.txs| > 0
  {
    match ApplyTxs(env, maturity, utxo, b.txs, |b.txs|, height)
    case Err(e) => Err(e)
    case Ok(applied) =>
      match CheckOutputs(b.txs[0].outs, |b.txs[0].outs|)
      case Err(e) => Err(e)
      case Ok(paid) =>
        match CheckedAdd(SubsidyAt(height), applied.fees)
        case None => Err(AllowedRange)
        case Some(allowed) =>
          if paid > allowed then Err(CoinbaseTooLarge)
          else Ok(SpendAndCreate(env, applied.utxo, b.txs[0], height, true))
  }

  // ---- context-free block checks ----

  /** Inputs of the non-coinbase transactions before position `n`, in block order. */
  function SpentIns(txs: seq<Tx>, n: nat): seq<TxIn>
    requires n <= |txs|
  {
    if n <= 1 then [] else SpentIns(txs, n - 1) + txs[n - 1].ins
  }

  predicate DistinctIds(env: Env, txs: seq<Tx>) {
    forall i, j :: 0 <= i < j < |txs| ==> env.txId(txs[i]) != env.txId(txs[j])
  }

  /** `checkBlockSanity` accepts: one leading coinbase, no empty transaction, no repeated transaction
      or input inside the block, and outputs in range. */
  predicate SaneTxs(env: Env, txs: seq<Tx>) {
    && |txs| > 0
    && txs[0].IsCoinbase()
    && (forall i :: 0 < i < |txs| ==> !txs[i].IsCoinbase())
    && (forall i :: 0 <= i < |txs| ==> |txs[i].ins| > 0 && |txs[i].outs| > 0 && GoodOutputs(txs[i].outs, |txs[i].outs|))
    && DistinctIds(env, txs)
    && DistinctPrevs(SpentIns(txs, |txs|), |SpentIns(txs, |txs|)|)
  }

  lemma {:induction false} SaneNonempty(env: Env, txs: seq<Tx>)
    requires SaneTxs(env, txs)
    ensures |txs| > 0
  {
  }

  /** `replayBranch`: rebuild the UTXO set of a whole chain from nothing. */
  function Replay(env: Env, maturity: int, blocks: seq<Block>): Result<Utxo, TxError> {
    if blocks == [] then Ok(map[])
    else
      var last := blocks[|blocks| - 1];
      match Replay(env, maturity, blocks[..|blocks| - 1])
      case Err(e) => Err(e)
      case Ok(utxo) =>
        if !SaneTxs(env, last.txs) then Err(InsaneBlock)
        else ApplyBlock(env, maturity, utxo, last, |blocks| - 1)
  }
}
