/** Every job the coordinator issues passes the client's check (pool/pplns_coordinator.go, pool/pplns_work.go). */
module PoolIssue {
  import opened Types
  import opened Bits
  import opened Money
  import opened Sorting
  import opened Order
  import opened Params
  import opened Ledger
  import opened Compact
  import opened Difficulty
  import opened MedianTime
  import opened Merkle
  import opened Varint
  import opened Wire
  import opened Consensus
  import opened Template
  import opened TemplateTheorems
  import opened Invariant
  import opened Apportion
  import opened Payouts
  import opened ShareWindow
  import opened WindowWeights
  import opened PoolWork

  function PoolCoinbase(height: nat, outs: seq<TxOut>, tag: seq<Byte>): Tx {
    NewCoinbase(height, 0, ZERO_PKH, tag).(outs := outs)
  }

  /** An empty window pays the requester; otherwise the frozen window is paid. */
  ghost function WindowBuilder(c: Codec, w: Window, payout: Pkh, tag: seq<Byte>): Builder {
    (height: nat, reward: int) =>
      if w.shares == [] then Some(PoolCoinbase(height, [TxOut(reward, payout)], tag))
      else
        match WindowPayouts(c, w, reward)
        case None => None
        case Some(outs) => Some(PoolCoinbase(height, outs, tag))
  }

  /** What one call of `Issue` reads. */
  datatype Request = Request(address: string, tag: seq<Byte>, jobId: seq<Byte>, multiplier: nat, now: I64)

  function ShareTargetFor(networkTarget: nat, multiplier: nat, max: nat): nat {
    MulNonneg(networkTarget, multiplier);
    if networkTarget * multiplier > max then max else networkTarget * multiplier
  }

  function IssuedWork(env: Env, snapshotHash: Window -> Hash, p: Params, v: View, w: Window, q: Request, b: Block, rows: seq<Weight>): PoolWork
    requires |b.txs| > 0
  {
    var target := CompactToTarget(b.header.bits);
    PoolWork(2, w.network, "pplns", 0, q.jobId, v.height, HeaderBytes(b.header),
             target, ShareTargetFor(target, q.multiplier, MaxTarget(p)), p.argonMemKiB, p.argonTime, w.windowShares, |w.shares|,
             snapshotHash(w), w, if w.shares == [] then REQUESTER else PPLNS_WINDOW, rows,
             TxBytes(b.txs[0]), Merkle.Branch(env.pair, TxIds(env, b.txs), 0))
  }

  ghost function RowsFor(w: Window, address: string): seq<Weight> {
    if w.shares == [] then [Weight(address, 1, 1)] else WeightRows(w.shares)
  }

  /** `Issue` up to the point where the job is stored. */
  ghost function Issue(c: Codec, snapshotHash: Window -> Hash, p: Params, v: View, pool: seq<Tx>, w: Window, q: Request): Option<PoolWork> {
    if !ValidAddress(c, q.address) || NetworkId(p) != Some(w.network) then None
    else if w.shares != [] && WindowPayouts(c, w, SubsidyAt(v.height)).None? then None
    else
      match Assemble(v, pool, WindowBuilder(c, w, PkhOf(c, q.address), q.tag + Commitment(snapshotHash(w))), q.now)
      case None => None
      case Some(b) =>
        if |b.txs| == 0 || DecodeBlock(BlockBytes(b)).None? then None
        else Some(IssuedWork(v.env, snapshotHash, p, v, w, q, b, RowsFor(w, q.address)))
  }

  // ---- the template behind a job ----

  lemma {:induction false} AssembleFacts(v: View, pool: seq<Tx>, build: Builder, now: I64, b: Block) returns (reward: int)
    requires Assemble(v, pool, build, now) == Some(b)
    ensures |b.txs| > 0 && build(v.height, reward) == Some(b.txs[0]) && CoinbaseShape(b.txs[0], v.height, reward)
    ensures reward >= SubsidyAt(v.height)
    ensures b.header == Header(1, v.tipId, TxRoot(v.env, b.txs), now, v.bits, 0)
    ensures BlockSize(b.txs) <= MAX_BLOCK_BYTES
  {
    hide CoinbaseShape, SubsidyAt, TxRoot, BlockSize, Pick, TxBytes;
    var subsidy := SubsidyAt(v.height);
    var preliminary := build(v.height, subsidy);
    reward := CheckedAdd(subsidy, Pick(v, preliminary.value, pool, |pool|).fees).value;
  }

  lemma {:induction false} TxCount(txs: seq<Tx>)
    ensures |txs| <= TxsSize(txs)
  {
    hide TxBytes;
    if txs != [] {
      TxCount(txs[..|txs| - 1]);
    }
  }

  lemma {:induction false} ProofCommitted(env: Env, txs: seq<Tx>)
    requires 0 < |txs| && BlockSize(txs) <= MAX_BLOCK_BYTES
    ensures var branch := Merkle.Branch(env.pair, TxIds(env, txs), 0);
            |branch| <= 64 && FoldBranch(env.pair, env.txId(txs[0]), 0, branch) == Some(TxRoot(env, txs))
  {
    hide TxsSize, Merkle.Branch, FoldBranch, Root;
    TxCount(txs);
    BranchProvesInclusion(env.pair, TxIds(env, txs), 0);
    Pow2Values();
    Pow2Add(16, 4);
    BranchLength(env.pair, TxIds(env, txs), 0, 20);
  }

  // ---- the coinbase ----

  lemma {:induction false} UvarintAtMost(n: nat, i: nat)
    requires i <= 9 && n < Room(i)
    ensures |PutUvarint(n)| <= 10 - i
    decreases 10 - i
  {
    if i < 9 && n >= 128 {
      UvarintAtMost(n / 128, i + 1);
    }
  }

  lemma {:induction false} CoinbaseLength(height: nat, outs: seq<TxOut>, tag: seq<Byte>)
    requires height < 0x1_0000_0000_0000_0000 && |outs| <= 256 && |tag| <= 256
    ensures 0 < |TxBytes(PoolCoinbase(height, outs, tag))| <= 32 * 1024
    ensures |PutUvarint(height)| <= 10
  {
    hide LE, PutUvarint, OutsBytes;
    FullRoom();
    UvarintAtMost(height, 0);
    UvarintShort(|PutUvarint(height)|);
    UvarintShort(0);
    UvarintShort(1);
    UvarintShort(|outs|);
    UvarintShort(|tag|);
    OutsLength(outs);
    var cb := PoolCoinbase(height, outs, tag);
    assert InsBytes(cb.ins, false) == InBytes(cb.ins[0], false) + InsBytes([], false) by { assert cb.ins[1..] == []; }
  }

  lemma {:induction false} CoinbaseDecodes(height: nat, outs: seq<TxOut>, tag: seq<Byte>)
    requires height < 0x1_0000_0000_0000_0000 && |outs| <= 256 && |tag| <= 256 && GoodOutputs(outs, |outs|)
    ensures DecodeTx(TxBytes(PoolCoinbase(height, outs, tag))) == Some(PoolCoinbase(height, outs, tag))
  {
    hide DecodeTx, TxBytes, PutUvarint, OutSum;
    CoinbaseLength(height, outs, tag);
    TxRoundTrip(PoolCoinbase(height, outs, tag));
  }

  lemma {:induction false} TagSuffix(tag: seq<Byte>, commitment: seq<Byte>)
    ensures HasSuffix(tag + commitment, commitment)
  {
  }

  // ---- the rows ----

  lemma {:induction false} RowSharesMap(keys: seq<string>, f: string -> Weight, g: string -> int)
    requires forall a :: f(a).shares == g(a)
    ensures RowShares(Map(keys, f)) == Sum(keys, g)
  {
    hide Map, Sum;
    SumEmpty(g);
    if keys != [] {
      var n := |keys| - 1;
      RowSharesMap(keys[..n], f, g);
      assert Map(keys, f)[..n] == Map(keys[..n], f);
      assert keys == keys[..n] + [keys[n]];
      SumSnoc(keys[..n], keys[n], g);
    }
  }

  lemma {:induction false} CountsConserved(shares: seq<Share>)
    ensures TotalWork(CountBy(shares)) == |shares|
  {
    hide TotalWork, Sum, Bumped;
    if shares == [] {
      assert Lists(map[], []);
      TotalOfListing(map[], []);
      SumEmpty(WorkFn(map[]));
    } else {
      var init := shares[..|shares| - 1];
      CountsConserved(init);
      BumpTotal(CountBy(init), shares[|shares| - 1].address, 1);
    }
  }

  lemma {:induction false} CountPositive(shares: seq<Share>, a: string)
    requires a in CountBy(shares)
    ensures CountBy(shares)[a] >= 1
  {
    var init, last := shares[..|shares| - 1], shares[|shares| - 1];
    if a in CountBy(init) {
      CountPositive(init, a);
    }
  }

  /** Every share is counted once. */
  lemma {:induction false} RowsCountShares(shares: seq<Share>)
    ensures RowShares(WeightRows(shares)) == |shares|
  {
    hide WorkBy, CountBy, AddressList, Map, RowShares, Sum, TotalWork;
    MapKeys(shares);
    var keys := AddressList(WorkBy(shares));
    RowSharesMap(keys, WeightFn(shares), WorkFn(CountBy(shares)));
    TotalOfListing(CountBy(shares), keys);
    CountsConserved(shares);
  }

  lemma {:induction false} RowSharesGrow(rows: seq<Weight>, k: nat)
    requires k <= |rows|
    ensures 0 <= RowShares(rows[..k]) <= RowShares(rows)
    ensures k > 0 ==> rows[k - 1].shares <= RowShares(rows[..k])
    decreases |rows|
  {
    RowSharesNonneg(rows[..k]);
    if k == |rows| {
      assert rows[..k] == rows;
    } else {
      RowSharesGrow(rows[..|rows| - 1], k);
      assert rows[..|rows| - 1][..k] == rows[..k];
    }
    if k > 0 {
      assert rows[..k][..k - 1] == rows[..k - 1];
      RowSharesNonneg(rows[..k - 1]);
    }
  }

  lemma {:induction false} RowSharesNonneg(rows: seq<Weight>)
    ensures RowShares(rows) >= 0
  {
    if rows != [] {
      RowSharesNonneg(rows[..|rows| - 1]);
    }
  }

  lemma {:induction false} StrictlyAscending(weights: Weights, i: nat)
    requires 0 < i < |AddressList(weights)|
    ensures !LexLe(AddressList(weights)[i], AddressList(weights)[i - 1])
  {
    hide LexLe, AddressList;
    var keys := AddressList(weights);
    KeysSorted(weights);
    ListingFacts(weights, keys);
    LexIsTotalOrder();
    assert LexLe(keys[i - 1], keys[i]);
    OnceEach(keys, i - 1, i);
  }

  lemma {:induction false} WindowWithinLimit(c: Codec, w: Window)
    requires ValidState(c, w, w.network, w.windowShares, w.maxAddresses)
    ensures |w.shares| <= w.windowShares
  {
  }

  lemma {:induction false} WindowRowsOk(c: Codec, w: Window)
    requires ValidState(c, w, w.network, w.windowShares, w.maxAddresses)
    requires w.windowShares <= 4096 && w.maxAddresses <= 256 && w.shares != [] && !ValidAddress(c, "")
    ensures RowsOk(c, WeightRows(w.shares))
  {
    hide ValidAddress, BitLen, LexLe, AddressList, TotalWork, WorkBy, CountBy, RowShares, Map, SharesValid, Contiguous, DistinctKeys,
         NetworkMaxTarget;
    var work := WorkBy(w.shares);
    var keys, rows := AddressList(work), WeightRows(w.shares);
    MapKeys(w.shares);
    ListingFacts(work, keys);
    assert |work| == |work.Keys|;
    assert w.shares[0].address in Addresses(w.shares);
    WindowWorkFits(c, w);
    RowsCountShares(w.shares);
    forall i | 0 <= i < |rows| ensures RowOk(c, rows, i) {
      var a := keys[i];
      assert a in work && a in CountBy(w.shares);
      assert ValidWeight(c, work, a);
      CountPositive(w.shares, a);
      RowSharesGrow(rows, i + 1);
      if i > 0 {
        StrictlyAscending(work, i);
      } else {
        EmptyIsLeast(a);
      }
    }
  }

  lemma {:induction false} EmptyIsLeast(a: string)
    ensures LexLe(a, "") <==> a == ""
  {
  }

  lemma {:induction false} RequesterRowsOk(c: Codec, address: string)
    requires ValidAddress(c, address) && !ValidAddress(c, "")
    ensures RowsOk(c, [Weight(address, 1, 1)]) && RowShares([Weight(address, 1, 1)]) == 1
  {
    hide ValidAddress, LexLe;
    var rows := [Weight(address, 1, 1)];
    EmptyIsLeast(address);
    assert rows[..0] == [] && rows[..1] == rows;
    assert RowShares(rows) == RowShares([]) + 1;
    Pow2Values();
    BitLenBelow(1, 268);
    Pow2Mono(4, 268);
  }

  // ---- the theorem ----

  ghost predicate IssueReady(c: Codec, p: Params, v: View, w: Window, q: Request) {
    && !ValidAddress(c, "")
    && ValidState(c, w, w.network, w.windowShares, w.maxAddresses)
    && 1 <= w.windowShares <= 4096 && 1 <= w.maxAddresses <= 256 && w.maxAddresses <= w.windowShares
    && 1 <= |q.tag| <= 64 && |q.jobId| == 16 && q.multiplier >= 1
    && 1 <= v.height < 0x8000_0000_0000_0000
    && 0 < CompactToTarget(v.bits) <= MaxTarget(p)
  }

  lemma {:induction false} NetworkTarget(p: Params)
    requires NetworkId(p).Some?
    ensures MaxTarget(p) < Pow2(256)
  {
    hide MaxTarget, Pow2, Pow256;
    CanonicalNetworksUsable(p.genesisHeadline);
    Pow256IsPow2(32);
  }

  lemma {:induction false} ShareTargetBounds(t: nat, m: nat, max: nat)
    requires t <= max && m >= 1
    ensures t <= ShareTargetFor(t, m, max) <= max
  {
    MulMono(1, m, t);
  }

  /** A job handed out with a positive network target passes the client's check. */
  lemma {:induction false} IssuedIsAcceptable(c: Codec, snapshotHash: Window -> Hash, p: Params, v: View, pool: seq<Tx>, w: Window, q: Request)
    requires IssueReady(c, p, v, w, q) && Issue(c, snapshotHash, p, v, pool, w, q).Some?
    ensures Acceptable(c, v.env, snapshotHash, p, Issue(c, snapshotHash, p, v, pool, w, q).value)
  {
    hide DecodeTx, DecodeBlock, TxBytes, BlockBytes, HeaderBytes, DecodeHeader, SubsidyAt, Merkle.Branch, FoldBranch, TxRoot, PutUvarint, WeightRows,
         WindowPayouts, Pow2, BlockSize, CoinbaseShape, Assemble, ValidState, HexText, ValidAddress, CompactToTarget, MaxTarget, PoolCoinbase,
         ProofOk, NetworkId, ShareTargetFor;
    var tag := q.tag + Commitment(snapshotHash(w));
    var build := WindowBuilder(c, w, PkhOf(c, q.address), tag);
    var b := Assemble(v, pool, build, q.now).value;
    var reward := AssembleFacts(v, pool, build, q.now, b);
    var work := Issue(c, snapshotHash, p, v, pool, w, q).value;
    HeaderRoundTrip(b.header);
    WindowWithinLimit(c, w);
    NetworkTarget(p);
    ShareTargetBounds(CompactToTarget(v.bits), q.multiplier, MaxTarget(p));
    IssuedProof(c, snapshotHash, p, v, w, q, b, reward);
  }

  /** What an issued job is: the next height on the current tip at the current time and bits, the network target of those bits and
      the smaller of its multiple and the network's easiest as share target, the window as it stands, and a coinbase that pays the
      whole reward, to the window's allocation or, when the window is empty, to the address that asked. */
  lemma {:induction false} IssuedMeans(c: Codec, snapshotHash: Window -> Hash, p: Params, v: View, pool: seq<Tx>, w: Window, q: Request)
    returns (b: Block, reward: int)
    requires IssueReady(c, p, v, w, q) && Issue(c, snapshotHash, p, v, pool, w, q).Some?
    ensures var work := Issue(c, snapshotHash, p, v, pool, w, q).value;
            && |b.txs| > 0 && work.header == HeaderBytes(b.header) && work.coinbase == TxBytes(b.txs[0])
            && b.header.prevBlock == v.tipId && b.header.time == q.now && b.header.bits == v.bits && b.header.nonce == 0
            && b.header.merkleRoot == Merkle.Root(v.env.pair, TxIds(v.env, b.txs))
            && work.height == v.height && work.jobId == q.jobId && work.network == w.network && work.window == w
            && work.networkTarget == CompactToTarget(v.bits)
            && work.shareTarget == (if CompactToTarget(v.bits) * q.multiplier > CompactToTarget(p.maxTargetBits) then CompactToTarget(p.maxTargetBits)
                                    else CompactToTarget(v.bits) * q.multiplier)
            && reward >= SubsidyAt(v.height) && OutSum(b.txs[0].outs, |b.txs[0].outs|) == reward
            && (if w.shares == [] then b.txs[0].outs == [TxOut(reward, PkhOf(c, q.address))] && work.weights == [Weight(q.address, 1, 1)]
                else WindowPayouts(c, w, reward) == Some(b.txs[0].outs) && work.weights == WeightRows(w.shares))
  {
    hide DecodeTx, DecodeBlock, TxBytes, BlockBytes, HeaderBytes, SubsidyAt, Merkle.Branch, Merkle.Root, PutUvarint, WeightRows,
         WindowPayouts, BlockSize, CoinbaseShape, Assemble, ValidState, HexText, ValidAddress, CompactToTarget, PoolCoinbase, NetworkId, OutSum;
    var build := WindowBuilder(c, w, PkhOf(c, q.address), q.tag + Commitment(snapshotHash(w)));
    b := Assemble(v, pool, build, q.now).value;
    reward := AssembleFacts(v, pool, build, q.now, b);
    AddressesWithin(c, w);
    PaidOuts(c, w, PkhOf(c, q.address), q.tag + Commitment(snapshotHash(w)), v.height, reward);
    ShapeSum(b.txs[0], v.height, reward);
  }

  lemma {:induction false} AddressesWithin(c: Codec, w: Window)
    requires ValidState(c, w, w.network, w.windowShares, w.maxAddresses)
    ensures |Addresses(w.shares)| <= w.maxAddresses
  {
    hide SharesValid, Contiguous, DistinctKeys, Addresses, NextAfter;
  }

  lemma {:induction false} PaidOuts(c: Codec, w: Window, payout: Pkh, tag: seq<Byte>, height: nat, reward: int)
    requires WindowBuilder(c, w, payout, tag)(height, reward).Some?
    requires w.maxAddresses <= 256 && |Addresses(w.shares)| <= w.maxAddresses
    ensures var cb := WindowBuilder(c, w, payout, tag)(height, reward).value;
            && cb == PoolCoinbase(height, cb.outs, tag) && |cb.outs| <= 256
            && (if w.shares == [] then cb.outs == [TxOut(reward, payout)] else WindowPayouts(c, w, reward) == Some(cb.outs))
  {
    hide PayoutList, WorkBy, Addresses, ValidState;
    if w.shares != [] {
      PayoutsExhaustReward(c, WorkBy(w.shares), reward);
      MapKeys(w.shares);
      assert |WorkBy(w.shares)| == |WorkBy(w.shares).Keys|;
    }
  }

  lemma {:induction false} IssuedProof(c: Codec, snapshotHash: Window -> Hash, p: Params, v: View, w: Window, q: Request, b: Block, reward: int)
    requires IssueReady(c, p, v, w, q) && ValidAddress(c, q.address) && |b.txs| > 0
    requires WindowBuilder(c, w, PkhOf(c, q.address), q.tag + Commitment(snapshotHash(w)))(v.height, reward) == Some(b.txs[0])
    requires CoinbaseShape(b.txs[0], v.height, reward) && reward >= SubsidyAt(v.height) && BlockSize(b.txs) <= MAX_BLOCK_BYTES
    requires b.header.merkleRoot == TxRoot(v.env, b.txs)
    ensures ProofOk(c, v.env, IssuedWork(v.env, snapshotHash, p, v, w, q, b, RowsFor(w, q.address)))
  {
    hide DecodeTx, TxBytes, HeaderBytes, DecodeHeader, SubsidyAt, Merkle.Branch, FoldBranch, TxRoot, PutUvarint, WeightRows, WindowBuilder,
         WindowPayouts, BlockSize, HexText, ValidAddress, CompactToTarget, MaxTarget, RowsOk, PoolCoinbase, SharesValid, Contiguous,
         DistinctKeys, NetworkMaxTarget, BasisOk, ShareTargetFor, Addresses;
    var tag := q.tag + Commitment(snapshotHash(w));
    var cb := b.txs[0];
    PaidOuts(c, w, PkhOf(c, q.address), tag, v.height, reward);
    CoinbaseLength(v.height, cb.outs, tag);
    CoinbaseDecodes(v.height, cb.outs, tag);
    PoolCoinbaseParts(v.height, cb.outs, tag);
    TagSuffix(q.tag, Commitment(snapshotHash(w)));
    ProofCommitted(v.env, b.txs);
    HeaderRoundTrip(b.header);
    var work := IssuedWork(v.env, snapshotHash, p, v, w, q, b, RowsFor(w, q.address));
    IssuedBasis(c, snapshotHash, p, v, w, q, b, reward);
  }

  lemma {:induction false} PoolCoinbaseParts(height: nat, outs: seq<TxOut>, tag: seq<Byte>)
    ensures PoolCoinbase(height, outs, tag).lockTag == tag
  {
  }

  lemma {:induction false} IssuedBasis(c: Codec, snapshotHash: Window -> Hash, p: Params, v: View, w: Window, q: Request, b: Block, reward: int)
    requires IssueReady(c, p, v, w, q) && ValidAddress(c, q.address) && |b.txs| > 0
    requires CoinbaseShape(b.txs[0], v.height, reward)
    requires if w.shares == [] then b.txs[0].outs == [TxOut(reward, PkhOf(c, q.address))]
             else WindowPayouts(c, w, reward) == Some(b.txs[0].outs)
    ensures var work := IssuedWork(v.env, snapshotHash, p, v, w, q, b, RowsFor(w, q.address));
            RowsOk(c, work.weights) && BasisOk(c, work, b.txs[0])
  {
    hide TxBytes, HeaderBytes, Merkle.Branch, PutUvarint, WeightRows, ValidAddress, CompactToTarget, MaxTarget, RowsOk, ValidState,
         PayoutList, OutSum, GoodOutputs, RowShares, RowWork, WorkBy, ShareTargetFor;
    if w.shares == [] {
      RequesterRowsOk(c, q.address);
    } else {
      WindowRowsOk(c, w);
      RowsCountShares(w.shares);
      RowsCarryWork(w.shares);
    }
  }

  /** On every chain state the node can reach, the required target is within the network maximum, so a job issued there
      with a positive target is always accepted. */
  lemma {:induction false} IssuedOnChain(c: Codec, snapshotHash: Window -> Hash, r: Rules, s: State, clock: int, pool: seq<Tx>, w: Window, q: Request)
    requires UsableParams(r.p) && Inv(r, s, clock) && Linked(s.index) && Attached(s.index, s.tip)
    requires !ValidAddress(c, "") && ValidState(c, w, w.network, w.windowShares, w.maxAddresses)
    requires 1 <= w.windowShares <= 4096 && 1 <= w.maxAddresses <= 256 && w.maxAddresses <= w.windowShares
    requires 1 <= |q.tag| <= 64 && |q.jobId| == 16 && q.multiplier >= 1
    requires s.tip.height + 1 < 0x8000_0000_0000_0000 && CompactToTarget(ViewOf(r, s).bits) > 0
    requires Issue(c, snapshotHash, r.p, ViewOf(r, s), pool, w, q).Some?
    ensures Acceptable(c, r.env, snapshotHash, r.p, Issue(c, snapshotHash, r.p, ViewOf(r, s), pool, w, q).value)
  {
    hide UsableParams, BranchBits, MempoolOk, EntryOk, CompactToTarget, Replay, ValidState, Issue, Acceptable, MaxTarget, ValidAddress;
    ParentTarget(r, s.index, s.tip.id, clock);
    var bits := ViewOf(r, s).bits;
    ChildTargetWithinMax(r, Consensus.Branch(s.index, s.tip), Block(s.tip.block.header.(bits := bits), s.tip.block.txs));
    IssuedIsAcceptable(c, snapshotHash, r.p, ViewOf(r, s), pool, w, q);
  }

  lemma {:induction false} IssuedBlock(c: Codec, snapshotHash: Window -> Hash, p: Params, v: View, pool: seq<Tx>, w: Window, q: Request) returns (b: Block)
    requires Issue(c, snapshotHash, p, v, pool, w, q).Some?
    ensures Assemble(v, pool, WindowBuilder(c, w, PkhOf(c, q.address), q.tag + Commitment(snapshotHash(w))), q.now) == Some(b)
    ensures |b.txs| > 0
    ensures Issue(c, snapshotHash, p, v, pool, w, q).value == IssuedWork(v.env, snapshotHash, p, v, w, q, b, RowsFor(w, q.address))
  {
    hide Assemble, DecodeBlock, BlockBytes, ValidAddress, NetworkId, WindowPayouts, SubsidyAt, IssuedWork, Commitment;
    b := Assemble(v, pool, WindowBuilder(c, w, PkhOf(c, q.address), q.tag + Commitment(snapshotHash(w))), q.now).value;
  }

  /** From job to block: on the chain a job was issued on, the header it hands out is, with any nonce whose hash value meets the
      job's network target, the header of a block the chain takes as its new tip, exactly when the job's time passes the time
      rule. */
  lemma {:induction false} WinningShareIsBlock(c: Codec, snapshotHash: Window -> Hash, r: Rules, s: State, clock: int, pool: seq<Tx>, w: Window,
                                               q: Request, nonce: U64, now: int) returns (b: Block)
    requires UsableParams(r.p) && Inv(r, s, clock) && Linked(s.index) && Attached(s.index, s.tip)
    requires FromMempool(r, s, pool) && FreshIds(r, s)
    requires Issue(c, snapshotHash, r.p, ViewOf(r, s), pool, w, q).Some?
    ensures HeaderBytes(b.header) == Issue(c, snapshotHash, r.p, ViewOf(r, s), pool, w, q).value.header && b.header.time == q.now
    ensures var target := Issue(c, snapshotHash, r.p, ViewOf(r, s), pool, w, q).value.networkTarget;
            var won := Block(b.header.(nonce := nonce), b.txs);
            && |b.txs| > 0
            && (r.env.txId(b.txs[0]) !in s.mempool && r.env.headerId(won.header) !in s.index && target > 0 && r.env.pow(won.header) <= target ==>
                  AcceptBlock(r, s, won, now, true).1
                  == if TimestampOk(r.p, Times(Consensus.Branch(s.index, s.tip)), q.now, now) then NewTip else Rejected(BadTime))
  {
    hide UsableParams, Inv, BranchBits, FromMempool, FreshIds, Issue, Assemble, TemplateOk, AcceptBlock, TimestampOk, CompactToTarget,
         HeaderBytes, Linked, Attached, Consensus.Branch, Headers, Times, TxBytes, Merkle.Branch, ShareTargetFor, Commitment;
    var build := WindowBuilder(c, w, PkhOf(c, q.address), q.tag + Commitment(snapshotHash(w)));
    b := IssuedBlock(c, snapshotHash, r.p, ViewOf(r, s), pool, w, q);
    var reward := AssembleFacts(ViewOf(r, s), pool, build, q.now, b);
    var won := Block(b.header.(nonce := nonce), b.txs);
    if r.env.txId(b.txs[0]) !in s.mempool && r.env.headerId(won.header) !in s.index
       && CompactToTarget(b.header.bits) > 0 && r.env.pow(won.header) <= CompactToTarget(b.header.bits) {
      TemplateIsValid(r, s, clock, pool, build, q.now, b);
      TipTarget(r, s, clock, b);
      MinedTemplateIff(r, s, clock, b, nonce, now);
    }
  }

  lemma {:induction false} TipTarget(r: Rules, s: State, clock: int, b: Block)
    requires UsableParams(r.p) && Inv(r, s, clock) && Linked(s.index) && Attached(s.index, s.tip)
    requires b.header.bits == BranchBits(r.p, Headers(Consensus.Branch(s.index, s.tip)))
    ensures CompactToTarget(b.header.bits) <= MaxTarget(r.p)
  {
    hide UsableParams, BranchBits, MempoolOk, EntryOk, CompactToTarget, Replay, MaxTarget;
    ParentTarget(r, s.index, s.tip.id, clock);
    ChildTargetWithinMax(r, Consensus.Branch(s.index, s.tip), b);
  }
}
