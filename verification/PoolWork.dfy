/** A PPLNS job and the client's check of it (pool/pplns_work.go). Fields the wire carries in hexadecimal are raw bytes
    or numbers here. */
module PoolWork {
  import opened Types
  import opened Bits
  import opened Money
  import opened Sorting
  import opened Order
  import opened Params
  import opened Ledger
  import opened Compact
  import opened Difficulty
  import opened Merkle
  import opened Varint
  import opened Wire
  import opened Apportion
  import opened Payouts
  import opened ShareWindow
  import opened WindowWeights

  const REQUESTER := "requester"
  const PPLNS_WINDOW := "pplns_window"

  datatype PoolWork = PoolWork(
    schema: int, network: string, mode: string, feeBps: int, jobId: seq<Byte>, height: int, header: seq<Byte>,
    networkTarget: nat, shareTarget: nat, argonMemKiB: U32, argonTime: U32, windowShares: int, currentShares: int,
    stateHash: seq<Byte>, window: Window, basis: string, weights: seq<Weight>, coinbase: seq<Byte>, branch: seq<Hash>)

  /** `CanonicalNetworkID`. */
  function NetworkId(p: Params): Option<string> {
    if p == MainNet(p.genesisHeadline) then Some(MAINNET)
    else if p == RegTest(p.genesisHeadline) then Some(REGTEST)
    else None
  }

  function HexChar(d: int): Byte
    requires 0 <= d < 16
  {
    if d < 10 then 48 + d else 87 + d
  }

  /** Lower-case hexadecimal text of a byte string. */
  function HexText(b: seq<Byte>): (r: seq<Byte>)
    ensures |r| == 2 * |b|
  {
    if b == [] then [] else [HexChar(b[0] / 16), HexChar(b[0] % 16)] + HexText(b[1..])
  }

  function Commitment(stateHash: seq<Byte>): (r: seq<Byte>)
    ensures |r| == 2 * |stateHash| + 1
  {
    [58] + HexText(stateHash)
  }

  predicate HasSuffix(s: seq<Byte>, suffix: seq<Byte>) {
    |s| >= |suffix| && s[|s| - |suffix|..] == suffix
  }

  predicate CanonicalTarget(t: nat) {
    0 < t < Pow2(256)
  }

  // ---- what the client accepts ----

  predicate EnvelopeOk(snapshotHash: Window -> Hash, p: Params, w: PoolWork) {
    && NetworkId(p) == Some(w.network)
    && w.schema == 2 && w.mode == "pplns" && w.feeBps == 0 && w.height > 0
    && 1 <= w.windowShares <= 4096 && 0 <= w.currentShares <= w.windowShares
    && w.window.network == w.network && w.window.windowShares == w.windowShares
    && 1 <= w.window.maxAddresses <= 256 && w.window.maxAddresses <= w.windowShares
    && |w.window.shares| == w.currentShares
    && |w.jobId| == 16 && |w.stateHash| == 32 && snapshotHash(w.window) == w.stateHash
    && |w.header| == 88 && DecodeHeader(w.header).nonce == 0
    && w.argonMemKiB == p.argonMemKiB && w.argonTime == p.argonTime
  }

  ghost predicate WindowOk(c: Codec, w: PoolWork) {
    ValidState(c, w.window, w.network, w.windowShares, w.window.maxAddresses)
  }

  function Reward(cb: Tx): int {
    OutSum(cb.outs, |cb.outs|)
  }

  predicate CoinbaseOk(w: PoolWork, cb: Tx) {
    && TxBytes(cb) == w.coinbase && cb.IsCoinbase() && cb.ins[0].sig == []
    && w.height > 0 && cb.ins[0].pubKey == PutUvarint(w.height)
    && GoodOutputs(cb.outs, |cb.outs|)
    && Reward(cb) >= SubsidyAt(w.height)
    && |Commitment(w.stateHash)| < |cb.lockTag| <= 64 + |Commitment(w.stateHash)|
    && HasSuffix(cb.lockTag, Commitment(w.stateHash))
  }

  predicate CommittedBy(env: Env, w: PoolWork, cb: Tx) {
    |w.branch| <= 64 && |w.header| == 88
    && FoldBranch(env.pair, env.txId(cb), 0, w.branch) == Some(DecodeHeader(w.header).merkleRoot)
  }

  function RowShares(rows: seq<Weight>): int {
    if rows == [] then 0 else RowShares(rows[..|rows| - 1]) + rows[|rows| - 1].shares
  }

  function RowWork(rows: seq<Weight>): Weights {
    if rows == [] then map[] else RowWork(rows[..|rows| - 1])[rows[|rows| - 1].address := rows[|rows| - 1].work]
  }

  function PreviousAddress(rows: seq<Weight>, i: nat): string
    requires i <= |rows|
  {
    if i == 0 then "" else rows[i - 1].address
  }

  predicate RowOk(c: Codec, rows: seq<Weight>, i: nat)
    requires i < |rows|
  {
    && ValidAddress(c, rows[i].address) && !LexLe(rows[i].address, PreviousAddress(rows, i))
    && 1 <= rows[i].shares <= 4096 && RowShares(rows[..i + 1]) <= 4096
    && 0 < rows[i].work && BitLen(rows[i].work) <= MAX_WORK_BITS
  }

  predicate RowsOk(c: Codec, rows: seq<Weight>) {
    1 <= |rows| <= 256 && forall i :: 0 <= i < |rows| ==> RowOk(c, rows, i)
  }

  ghost predicate BasisOk(c: Codec, w: PoolWork, cb: Tx) {
    if w.basis == REQUESTER then
      && w.currentShares == 0 && w.window.shares == [] && |w.weights| == 1 && RowShares(w.weights) == 1
      && w.weights[0].work == 1 && cb.outs == [TxOut(Reward(cb), PkhOf(c, w.weights[0].address))]
    else
      && w.basis == PPLNS_WINDOW
      && w.currentShares >= 1 && RowShares(w.weights) == w.currentShares
      && w.weights == WeightRows(w.window.shares)
      && PayoutList(c, RowWork(w.weights), Reward(cb)) == Some(cb.outs)
  }

  predicate TargetsOk(p: Params, w: PoolWork) {
    && |w.header| == 88
    && CanonicalTarget(w.networkTarget) && CanonicalTarget(w.shareTarget)
    && w.networkTarget == CompactToTarget(DecodeHeader(w.header).bits)
    && w.networkTarget <= w.shareTarget <= MaxTarget(p)
  }

  ghost predicate ProofOk(c: Codec, env: Env, w: PoolWork) {
    && 0 < |w.coinbase| <= 32 * 1024
    && (match DecodeTx(w.coinbase)
        case None => false
        case Some(cb) => CoinbaseOk(w, cb) && CommittedBy(env, w, cb) && RowsOk(c, w.weights) && BasisOk(c, w, cb))
  }

  /** `ParsePoolWork` as a condition on the job. */
  ghost predicate Acceptable(c: Codec, env: Env, snapshotHash: Window -> Hash, p: Params, w: PoolWork) {
    EnvelopeOk(snapshotHash, p, w) && WindowOk(c, w) && ProofOk(c, env, w) && TargetsOk(p, w)
  }

  // ---- the checks in the order the code makes them ----

  method ParsePoolWork(c: Codec, env: Env, snapshotHash: Window -> Hash, p: Params, w: PoolWork)
    returns (res: Option<(Header, nat, nat)>)
    ensures res.Some? <==> Acceptable(c, env, snapshotHash, p, w)
    ensures res.Some? ==> res == Some((DecodeHeader(w.header), w.networkTarget, w.shareTarget))
  {
    hide ValidState, ProofOk, CompactToTarget, MaxTarget, Pow2, DecodeHeader;
    if NetworkId(p) != Some(w.network) {
      return None;
    }
    if w.schema != 2 || w.mode != "pplns" || w.feeBps != 0 || w.height <= 0 {
      return None;
    }
    if w.windowShares < 1 || w.windowShares > 4096 || w.currentShares < 0 || w.currentShares > w.windowShares {
      return None;
    }
    if w.window.network != w.network || w.window.windowShares != w.windowShares || w.window.maxAddresses < 1
       || w.window.maxAddresses > 256 || w.window.maxAddresses > w.windowShares || |w.window.shares| != w.currentShares {
      return None;
    }
    var ok := ValidateState(c, w.window, w.network, w.windowShares, w.window.maxAddresses);
    if !ok {
      return None;
    }
    if |w.jobId| != 16 || |w.stateHash| != 32 || snapshotHash(w.window) != w.stateHash || |w.header| != 88 {
      return None;
    }
    var header := DecodeHeader(w.header);
    if header.nonce != 0 || w.argonMemKiB != p.argonMemKiB || w.argonTime != p.argonTime {
      return None;
    }
    ok := ValidateCoinbaseProof(c, env, w, header);
    if !ok {
      return None;
    }
    if !CanonicalTarget(w.networkTarget) {
      return None;
    }
    if w.networkTarget != CompactToTarget(header.bits) || w.networkTarget > MaxTarget(p) {
      return None;
    }
    if !CanonicalTarget(w.shareTarget) || w.shareTarget < w.networkTarget || w.shareTarget > MaxTarget(p) {
      return None;
    }
    res := Some((header, w.networkTarget, w.shareTarget));
  }

  method ValidateCoinbaseProof(c: Codec, env: Env, w: PoolWork, header: Header) returns (ok: bool)
    requires w.height > 0 && |w.header| == 88 && header == DecodeHeader(w.header)
    ensures ok <==> ProofOk(c, env, w)
  {
    hide DecodeTx, TxBytes, DecodeHeader, SubsidyAt, HexText, BasisOk, RowsOk, FoldBranch, PutUvarint;
    if |w.coinbase| == 0 || |w.coinbase| > 32 * 1024 {
      return false;
    }
    var decoded := DecodeTx(w.coinbase);
    if decoded.None? {
      return false;
    }
    var cb := decoded.value;
    if TxBytes(cb) != w.coinbase || !cb.IsCoinbase() || |cb.ins[0].sig| != 0 {
      return false;
    }
    if cb.ins[0].pubKey != PutUvarint(w.height) {
      return false;
    }
    var reward := AddOutputs(cb.outs);
    if reward.None? || reward.value < SubsidyAt(w.height) {
      return false;
    }
    var commitment := Commitment(w.stateHash);
    if |cb.lockTag| <= |commitment| || |cb.lockTag| > 64 + |commitment| || !HasSuffix(cb.lockTag, commitment) {
      return false;
    }
    if |w.branch| > 64 {
      return false;
    }
    var root := RootFromBranch(env, env.txId(cb), 0, w.branch);
    if root != Some(header.merkleRoot) {
      return false;
    }
    var rows := CheckRows(c, w.weights);
    if rows.None? {
      return false;
    }
    ok := CheckBasis(c, w, cb, rows.value.0, rows.value.1);
  }

  method AddOutputs(outs: seq<TxOut>) returns (reward: Option<int>)
    ensures reward.Some? <==> GoodOutputs(outs, |outs|)
    ensures reward.Some? ==> reward.value == OutSum(outs, |outs|)
  {
    var sum, i := 0, 0;
    while i < |outs|
      invariant 0 <= i <= |outs| && GoodOutputs(outs, i) && sum == OutSum(outs, i)
    {
      var value := outs[i].value;
      if value <= 0 || !MoneyRange(value) {
        return None;
      }
      if sum > MAX_MONEY - value {
        OutSumRises(outs, i + 1, |outs|);
        return None;
      }
      sum := sum + value;
      i := i + 1;
    }
    return Some(sum);
  }

  lemma {:induction false} OutSumRises(outs: seq<TxOut>, k: nat, n: nat)
    requires k <= n <= |outs|
    ensures GoodOutputs(outs, n) ==> OutSum(outs, k) <= OutSum(outs, n)
    ensures (forall i :: 0 <= i < n ==> 1 <= outs[i].value <= MAX_MONEY) ==> OutSum(outs, k) <= OutSum(outs, n)
  {
    if k < n {
      OutSumRises(outs, k, n - 1);
    }
  }

  /** Collects the advertised rows, which must be in strictly ascending address order. */
  method CheckRows(c: Codec, rows: seq<Weight>) returns (res: Option<(Weights, int)>)
    ensures res.Some? <==> RowsOk(c, rows)
    ensures res.Some? ==> res.value == (RowWork(rows), RowShares(rows))
  {
    hide ValidAddress, LexLe, BitLen;
    if |rows| == 0 || |rows| > 256 {
      return None;
    }
    var work: Weights, total, previous, i := map[], 0, "", 0;
    while i < |rows|
      invariant 0 <= i <= |rows| && (forall j :: 0 <= j < i ==> RowOk(c, rows, j))
      invariant work == RowWork(rows[..i]) && total == RowShares(rows[..i]) && previous == PreviousAddress(rows, i)
    {
      var row := rows[i];
      assert rows[..i + 1][..i] == rows[..i];
      if !ValidAddress(c, row.address) || LexLe(row.address, previous)
         || row.shares < 1 || row.shares > 4096 || total > 4096 - row.shares {
        assert !RowOk(c, rows, i);
        return None;
      }
      if row.work == 0 || BitLen(row.work) > MAX_WORK_BITS {
        assert !RowOk(c, rows, i);
        return None;
      }
      work := work[row.address := row.work];
      total := total + row.shares;
      previous := row.address;
      i := i + 1;
    }
    assert rows[..i] == rows;
    return Some((work, total));
  }

  method CheckBasis(c: Codec, w: PoolWork, cb: Tx, work: Weights, total: int) returns (ok: bool)
    requires work == RowWork(w.weights) && total == RowShares(w.weights)
    ensures ok <==> BasisOk(c, w, cb)
  {
    hide RowWork, RowShares, PayoutList, WeightRows, OutSum;
    if w.basis == REQUESTER {
      if w.currentShares != 0 || |w.window.shares| != 0 || |w.weights| != 1 || total != 1 || w.weights[0].work != 1 || |cb.outs| != 1 {
        return false;
      }
      return cb.outs[0].pkh == PkhOf(c, w.weights[0].address) && cb.outs[0].value == Reward(cb);
    }
    if w.basis != PPLNS_WINDOW || w.currentShares < 1 || total != w.currentShares {
      return false;
    }
    var committed := WeightsOfWindow(w.window);
    if committed != w.weights {
      return false;
    }
    var expected := OutputsFromWork(c, work, Reward(cb));
    return expected == Some(cb.outs);
  }

  // ---- what acceptance guarantees ----

  lemma {:induction false} RowWorkOf(rows: seq<Weight>, keys: seq<string>, f: string -> Weight)
    requires rows == Map(keys, f) && (forall a :: f(a).address == a)
    ensures forall a :: a in RowWork(rows) <==> a in keys
    ensures forall a :: a in RowWork(rows) ==> RowWork(rows)[a] == f(a).work
  {
    hide Map;
    if rows != [] {
      var n := |rows| - 1;
      var init, last := keys[..n], keys[n];
      assert keys == init + [last];
      assert rows[..n] == Map(init, f);
      RowWorkOf(rows[..n], init, f);
      assert rows[n] == f(last);
      assert forall a :: a in keys <==> a in init || a == last;
    }
  }

  /** The advertised rows carry exactly the window's work. */
  lemma {:induction false} RowsCarryWork(shares: seq<Share>)
    ensures RowWork(WeightRows(shares)) == WorkBy(shares)
  {
    hide WorkBy, CountBy, AddressList, Map, RowWork;
    var work := WorkBy(shares);
    var keys := AddressList(work);
    RowWorkOf(WeightRows(shares), keys, WeightFn(shares));
    ListingFacts(work, keys);
    var rows := RowWork(WeightRows(shares));
    forall a ensures a in rows <==> a in work {
      assert a in keys <==> a in work;
    }
  }

  /** A window-based job the client accepts pays exactly the committed window's allocation of its whole reward, which
      is at least the subsidy, from a coinbase committed by the header. */
  lemma {:induction false} AcceptedPaysWindow(c: Codec, env: Env, snapshotHash: Window -> Hash, p: Params, w: PoolWork)
    requires Acceptable(c, env, snapshotHash, p, w) && w.basis != REQUESTER
    ensures DecodeTx(w.coinbase).Some? && |w.header| == 88
    ensures var cb := DecodeTx(w.coinbase).value;
            && WindowPayouts(c, w.window, Reward(cb)) == Some(cb.outs)
            && w.height > 0 && Reward(cb) >= SubsidyAt(w.height)
            && FoldBranch(env.pair, env.txId(cb), 0, w.branch) == Some(DecodeHeader(w.header).merkleRoot)
            && snapshotHash(w.window) == w.stateHash && HasSuffix(cb.lockTag, Commitment(w.stateHash))
  {
    hide DecodeTx, TxBytes, DecodeHeader, SubsidyAt, FoldBranch, PutUvarint, PayoutList, RowWork, WeightRows, WorkBy, TargetsOk,
         ValidState, HexText, RowsOk, OutSum, GoodOutputs;
    RowsCarryWork(w.window.shares);
  }

  /** What a miner learns from a job the client accepts, whatever its basis: it is for this network and its proof-of-work
      parameters, takes no pool fee, and starts from a zero nonce; its network target is the one the header's bits spell out and
      its share target lies between that and the network's easiest; its coinbase is for the stated height, pays at least the
      subsidy, is committed to by the header and itself commits to the window; and a job without a window pays its single output
      to the one address it lists. */
  lemma {:induction false} AcceptedMeans(c: Codec, env: Env, snapshotHash: Window -> Hash, p: Params, w: PoolWork)
    requires Acceptable(c, env, snapshotHash, p, w)
    ensures |w.header| == 88 && DecodeTx(w.coinbase).Some?
    ensures NetworkId(p) == Some(w.network) && w.window.network == w.network && w.feeBps == 0 && w.schema == 2 && w.mode == "pplns"
    ensures w.argonMemKiB == p.argonMemKiB && w.argonTime == p.argonTime && |w.jobId| == 16
    ensures var header := DecodeHeader(w.header);
            && header.nonce == 0 && w.networkTarget == CompactToTarget(header.bits)
            && 0 < w.networkTarget <= w.shareTarget <= CompactToTarget(p.maxTargetBits)
    ensures var cb := DecodeTx(w.coinbase).value;
            && TxBytes(cb) == w.coinbase && |w.coinbase| <= 32768
            && cb.IsCoinbase() && w.height > 0 && cb.ins[0].pubKey == PutUvarint(w.height) && cb.ins[0].sig == []
            && GoodOutputs(cb.outs, |cb.outs|) && OutSum(cb.outs, |cb.outs|) >= SubsidyAt(w.height)
            && FoldBranch(env.pair, env.txId(cb), 0, w.branch) == Some(DecodeHeader(w.header).merkleRoot) && |w.branch| <= 64
            && w.stateHash == snapshotHash(w.window) && HasSuffix(cb.lockTag, [58] + HexText(w.stateHash))
    ensures ValidState(c, w.window, w.network, w.windowShares, w.window.maxAddresses)
    ensures 1 <= w.windowShares <= 4096 && w.window.windowShares == w.windowShares && |w.window.shares| == w.currentShares <= w.windowShares
    ensures 1 <= w.window.maxAddresses <= 256 && w.window.maxAddresses <= w.windowShares && 1 <= |w.weights| <= 256
    ensures 65 < |DecodeTx(w.coinbase).value.lockTag| <= 129 && |w.stateHash| == 32
    ensures |w.window.shares| == 0 <==> w.basis == "requester"
    ensures w.basis == "requester" ==>
              |w.weights| == 1 && ValidAddress(c, w.weights[0].address) && w.weights[0].shares == 1 && w.weights[0].work == 1
              && var cb := DecodeTx(w.coinbase).value; cb.outs == [TxOut(OutSum(cb.outs, |cb.outs|), PkhOf(c, w.weights[0].address))]
    ensures w.basis != "requester" ==> w.basis == "pplns_window" && w.weights == WeightRows(w.window.shares)
  {
    hide DecodeTx, TxBytes, DecodeHeader, SubsidyAt, FoldBranch, PutUvarint, PayoutList, RowWork, WeightRows, WorkBy,
         ValidState, HexText, OutSum, GoodOutputs, CompactToTarget, Pow2, NetworkId, BitLen, ValidAddress, RowShares, HasSuffix;
    assert w.basis == "requester" ==> RowOk(c, w.weights, 0);
    OneRow(w.weights);
  }

  lemma {:induction false} OneRow(rows: seq<Weight>)
    ensures |rows| == 1 ==> RowShares(rows) == rows[0].shares
  {
    assert |rows| == 1 ==> rows[..0] == [];
  }

  // ---- the commitment ----

  lemma {:induction false} HexCharBinds(x: int, y: int)
    requires 0 <= x < 16 && 0 <= y < 16 && HexChar(x) == HexChar(y)
    ensures x == y
  {
  }

  lemma {:induction false} HexTextBinds(a: seq<Byte>, b: seq<Byte>)
    requires |a| == |b| && HexText(a) == HexText(b)
    ensures a == b
  {
    if a != [] {
      var x, y := HexText(a), HexText(b);
      assert x[0] == HexChar(a[0] / 16) && x[1] == HexChar(a[0] % 16) && x[2..] == HexText(a[1..]);
      assert y[0] == HexChar(b[0] / 16) && y[1] == HexChar(b[0] % 16) && y[2..] == HexText(b[1..]);
      HexCharBinds(a[0] / 16, b[0] / 16);
      HexCharBinds(a[0] % 16, b[0] % 16);
      HexTextBinds(a[1..], b[1..]);
      assert a == [a[0]] + a[1..] && b == [b[0]] + b[1..];
    }
  }

  /** A coinbase tag commits to one state hash only. */
  lemma {:induction false} CommitmentBinds(tag: seq<Byte>, a: seq<Byte>, b: seq<Byte>)
    requires |a| == |b| && HasSuffix(tag, Commitment(a)) && HasSuffix(tag, Commitment(b))
    ensures a == b
  {
    hide HexText;
    assert Commitment(a) == Commitment(b);
    assert Commitment(a)[1..] == HexText(a) && Commitment(b)[1..] == HexText(b);
    HexTextBinds(a, b);
  }
}
