# Verified model of a proof-of-work coin node

This project models the consensus chain, difficulty arithmetic, mining pool, wallet and connection bookkeeping of a small
proof-of-work coin node written in Go, and proves what those parts promise. Everything is Dafny; `dafny verify dfyconfig.toml`
checks the whole project.

SHA256d, Argon2id and Ed25519 are function-valued parameters (`Types.Env`, `Signing.Key`), so the theorems hold whatever
they compute; where a theorem needs signatures to verify, the hypothesis is written out (`Signing.GoodKey`,
`Signing.DigestHashes`). Clocks, tips seen by a call, disk outcomes and map iteration order are parameters or arbitrary
choices. Integers are unbounded, and the 64-bit and money-range checks of the code are modelled where they decide something.

## How it is organised

- **Arithmetic.** `Bits`, `Money`, `Compact`, `Asert`, `Difficulty`, `Retarget` (the required target in terms of header times),
  `MedianTime`, `Sorting`, `Order`. ASERT follows the
  "Target computation" section of the Bitcoin Cash aserti3-2d specification with a two-hour half-life, median time past
  follows BIP 113.
- **Wire format.** `Varint`, `Wire` (encoders and decoders as functions, round trips), `WireLoops` (the loops), `Canonical` (when an
  accepted encoding is the canonical one), `Merkle` and `MerkleBinding` (when a root identifies its list).
- **Consensus.** `Ledger` and `Supply` (economics), `Consensus` (the state machine in its simple form, where every branch is
  replayed from genesis), `Invariant`, `Reachable` and `Outpoints` (what holds in every reachable state), `Acceptance` (what each
  answer of a node means), `Provenance` (where coins come from and what spends had to show), `UndoLog`, `BlockSanity` and `ChainNode` (the class that updates the live UTXO map in place with an undo log; each method is proved to do exactly what
  the simple form does).
- **On top of the chain.** `Template` and `TemplateTheorems` (block templates), `Snapshot` and `Store` (the durable file as one
  atomic cell), `WalletView`, `WalletHistory`, `WalletTheorems`, `WalletLoops` and `ViewFailure` (the wallet view).
- **Pool.** `Apportion` and `Payouts` (largest-remainder allocation), `ShareWindow`, `WindowWeights`, `PoolDesk` (jobs and
  receipts), `PoolProtocol` (concurrent submissions split at their lock boundaries), `PoolAudit` (what acknowledged shares and
  blocks go back to), `PoolSubmit` (one call as a run of its sections), `PoolWork` and `PoolIssue` (the client's check and why it accepts what is issued).
- **Wallet.** `Selection`, `Signing`, `Payment`, `PaymentTheorems`, `Maximum`, `Cleanup`, `WalletFunds`.
- **Connections.** `Slots` (bounds over every run), `TieBreak` (cross-dialled duplicates), `PeerBook` (when a peer loses its place,
  what the address book holds), `NetNode` (the in-place bookkeeping).

## What the code does that its documentation does not say

Where a promise turned out not to hold as stated, the model keeps the code's behaviour and proves the exact condition.

- Repeating an accepted pool submission returns the same receipt only while that receipt is retained
  (`PoolProtocol.RetryOutcome`, `PoolProtocol.EvictedReceiptIsRefused`).
- A pool reward of one unit per address does not guarantee an allocation (`Payouts.StarvedAddress`); it succeeds exactly when
  the leftover units reach every address owed less than a whole one (`Payouts.PayoutsIff`).
- The 256 KiB limit on the stored window caps it at 1170 shares at most, below the 4096 that configuration allows. The figure is
  an upper bound, since it counts only the hexadecimal fields of a share (`ShareWindow.ByteLimitCapsWindow`).
- A standard block template exists exactly while the next block earns a subsidy; fees alone never make one
  (`TemplateTheorems.StandardTemplateIff`).
- The 10,000-byte limit on wallet transactions is a limit of 74 inputs (`PaymentTheorems.PaymentSucceedsIff`,
  `Maximum.MaximumIff`, `Cleanup.CleanupCount`).
- The wallet view fails exactly when a transaction id repeats on the main chain (`WalletTheorems.ViewFromChain`), which consensus
  does not forbid across blocks: a coinbase may repeat an earlier one (`ViewFailure.ViewFailsReachably`).
- Decoding does not identify the bytes (`WireLoops.TruncatedEncodingAccepted`): they are the canonical ones exactly when every
  integer is minimal and no field was cut short (`Canonical.TxExact`, `Canonical.BlockExact`).
- A Merkle root does not identify a list (`MerkleBinding.RepeatedTailCollides`); among lists of distinct ids it does
  (`MerkleBinding.RootBinds`), and block sanity demands those.
- A block mined from a template is refused while the local clock the template carries does not pass the chain's time rule
  (`TemplateTheorems.MinedTemplateIff`).

## Model

| member | source | states |
|---|---|---|
| `Money.MintedWithinCap` | core/params.go:164-170 | the subsidies of any number of blocks add up to at most 21 million coins |
| `Money.SubsidyPositiveIff` | core/params.go:164-170 | a block earns a subsidy exactly when its height is below 33 halving intervals |
| `Money.SubsidyHalves` | core/params.go:164-170 | the first 210,000 blocks earn 50 coins each, and every later block half, rounded down, of what the block 210,000 below it earned |
| `Money.CheckedAdd` | core/params.go:42-47 | adds exactly when both operands are non-negative and the sum is within the cap (the wallet's spendable totals use it too, wallet/wallet.go:1146-1151) |
| `Money.MintedFrozen` | core/params.go:164-170 | once an era pays nothing, the minted total never changes again |
| `Money.TotalSubsidyThrough` | explorer/explorer.go:724-745 | the era-by-era loop with its early exit returns the block-by-block sum of subsidies at every height, and zero below genesis |
| `Compact.RoundsDown` | core/pow.go:49-67 | encoding a target of 1..2^256-1 and decoding it rounds down, by less than one part in 32768 |
| `Compact.EncodeMonotone` | core/pow.go:49-67 | a larger target never gets a smaller compact code |
| `Compact.RoundMonotone` | core/pow.go:36-67 | decode-after-encode is monotone in the target |
| `Compact.RoundIdempotent` | core/pow.go:36-67 | a target that has been through the encoding once is unchanged by it |
| `Compact.WorkPositive` | core/pow.go:71-75 | every target a hash can meet is worth at least one unit of work |
| `Compact.WorkAntitone` | core/pow.go:71-75 | an easier target is worth no more work |
| `Retarget.WorkBounds` | core/pow.go:71-75 | work is 2^256 over one more than the target, rounded down |
| `Retarget.EasiestTargets` | core/params.go:77-135 | the networks' easiest targets are 0xffff * 256^28 and 0x7fffff * 256^29 |
| `Asert.CalculateAsertTarget` | core/pow.go:80-159 | the step-by-step computation with all its early exits equals clamp(1, floor(ref * factor * 2^(shift-16)), max), and the stated defaults on degenerate arguments |
| `Asert.TargetAtExponent` | core/pow.go:106-159 | for each exponent, the early exits on huge shifts return what the closed form returns |
| `Asert.ScheduleExponent` | core/pow.go:99-105 | exponent times half-life lies between zero and the scaled schedule deviation and less than one half-life from it: truncation toward zero on both sides |
| `Asert.SplitExponent` | core/pow.go:114-120 | truncating division corrected to a floor: shift and a fraction in 0..65535 that recombine to the exponent |
| `Asert.ScaleAndClamp` | core/pow.go:136-159 | shifting left or right by the adjusted amount and clamping gives the closed form of that shift and fraction |
| `Asert.CubicFactor` | core/pow.go:122-134 | the term-by-term accumulation is the cubic factor |
| `Asert.FactorRange` | core/pow.go:122-134 | the cubic factor stays within 65536..131071 over every fraction |
| `Asert.UnclampedMono` | core/pow.go:80-159 | the unclamped target never decreases as the exponent grows, across the step from the last fraction to the next shift |
| `Asert.TargetMonotoneInTime` | core/pow.go:80-159 | the target never decreases as elapsed time grows |
| `Asert.OnScheduleKeepsTarget` | core/pow.go:80-159 | exactly on schedule, the reference target comes back unchanged |
| `Retarget.WholeHalfLives` | core/pow.go:80-159 | a deviation of k half-lives is k doublings, or halvings where k is negative |
| `Retarget.FactorQuarters` | core/pow.go:122-134 | at a quarter, a half and three quarters of a half-life the factor is within one part in 2000 of the power of two, compared as squares and fourth powers |
| `Difficulty.RequiredWithinMax` | core/pow.go:170-210 | whatever the history, the required target never exceeds the network maximum if the parent's did not |
| `Difficulty.BranchWithinMax` | core/pow.go:170-210 | the same for a branch given as a list of headers |
| `Difficulty.SameAccessors` | core/pow.go:170-210 | the required bits depend only on bits and times below the height, so any two lookups that agree there give the same bits |
| `Difficulty.LegacyClamp` | core/pow.go:187-210 | the legacy retarget moves a target by at most a factor of four either way, up to the maximum |
| `Retarget.ScheduleSetsTarget` | core/pow.go:174-186 | in header times: with ASERT active, a parent k half-lives behind the schedule counted from the anchor's parent requires the anchor's target doubled k times, clamped and rounded once; ahead of it, halved |
| `Retarget.OnScheduleKeepsAnchor` | core/pow.go:174-186 | a parent exactly on schedule requires the anchor's target, rounded once |
| `Retarget.LaterParentNeverHarder` | core/pow.go:170-210 | at every height, under either rule, raising the parent's time alone never lowers the required target |
| `Retarget.RetargetBySpan` | core/pow.go:187-210 | at a retarget the span from the interval's first block to the parent decides: the expected span keeps the parent's target, and every span scales it in proportion, held between a quarter and four times the expected span and capped by the maximum |
| `Retarget.BetweenRetargetsUnchanged` | core/pow.go:187-190 | before ASERT, heights that are no retarget keep the parent's bits |
| `Retarget.FirstBits` | core/pow.go:171-173 | an empty chain requires the maximum target's bits |
| `Difficulty.CanonicalNetworksUsable` | core/params.go:77-135 | both canonical networks pass parameter validation and have a maximum target below 2^256 |
| `Difficulty.RequiredWorkPositive` | core/pow.go:71-75 | a block at any permitted target adds at least one unit of work |
| `MedianTime.MedianNeverDecreases` | core/chain.go:736-775 | appending a time later than the current median never lowers the median, for full windows and for growing ones |
| `MedianTime.MedianMonotoneOnBranch` | core/chain.go:736-775 | along times that all passed the rule, median time past is non-decreasing |
| `Reachable.MedianTimeMonotone` | core/chain.go:736-775 | once ASERT is active, median time past never decreases along any branch of any reachable index |
| `Merkle.BranchProvesInclusion` | core/block.go:74-122 | for every list of leaves and every index, odd layers included, the branch rebuilds the root |
| `Merkle.BranchLength` | core/block.go:74-100 | a branch over at most 2^k leaves has at most k nodes |
| `MerkleBinding.RootBinds` | core/block.go:51-70 | two lists of distinct leaves with the same root are the same list, as long as the nodes computed for them do not collide and no leaf is a pair's hash |
| `MerkleBinding.RepeatedTailCollides` | core/block.go:51-70 | without distinctness it fails: repeating the last of three leaves gives the same root |
| `MerkleBinding.RootCommitsToBlock` | core/chain.go:781-801 | since sanity demands distinct ids, a header's root commits to one sane list of transactions |
| `Merkle.ComputeRoot` | core/block.go:51-70 | the layer loop computes the Merkle root of the transaction ids, the zero hash for none |
| `Merkle.ComputeNextLayer` | core/block.go:60-67 | one pass pairs up a layer, repeating the last node of an odd one |
| `Merkle.ComputeBranch` | core/block.go:74-100 | the loop returns the sibling path of the index, or nothing for an index out of range |
| `Merkle.RootFromBranch` | core/block.go:104-122 | the loop folds a branch back to a root and refuses a negative index or one too large for the branch |
| `Varint.UvarintRoundTrip` | core/pow.go:213-217 | every 64-bit value written as a varint is read back, whatever follows it |
| `Wire.HeaderRoundTrip` | core/block.go:22-37 | the 88-byte header encoding decodes to the same header |
| `Wire.HeaderLayout` | core/block.go:22-37 | every byte of the 88: which field and which digit of it stands where |
| `Wire.TxRoundTrip` | core/tx.go:69-169 | every transaction within the decoder's limits is decoded from its encoding |
| `Wire.BlockRoundTrip` | core/block.go:132-178 | every block within the decoder's limits is decoded from its encoding |
| `Canonical.VarintExact` | core/pow.go:213-217 | an accepted varint is what writing its value produces exactly when it is minimal |
| `Canonical.TxExact` | core/tx.go:120-169 | an accepted transaction's bytes are its canonical encoding exactly when every integer in them is minimal and no field was cut short; either way it is within the limits the decoder sets |
| `Canonical.BlockExact` | core/block.go:143-178 | the same for blocks |
| `WireLoops.WriteTx` | core/tx.go:69-90 | the writing loops produce the serialization, with or without signatures |
| `WireLoops.ParseTx` | core/tx.go:120-169 | the reading loops accept and return exactly what the decoder's definition does, trailing bytes and counts over the limits refused |
| `WireLoops.WriteBlock` | core/block.go:132-140 | the writing loop produces header, count and length-prefixed transactions |
| `WireLoops.ParseBlock` | core/block.go:143-178 | the reading loop accepts and returns exactly what the decoder's definition does |
| `WireLoops.TruncatedEncodingAccepted` | core/tx.go:52-65 | a concrete family outside that condition: a tag ending in a zero byte is also read when that byte is missing |
| `Ledger.CheckTxIff` | core/chain.go:575-636 | the ordered scan succeeds exactly on transactions with distinct, mature, owned, verifying inputs, positive in-range outputs and no inflation, and then returns inputs minus outputs |
| `Provenance.CoinsHaveOrigins` | core/chain.go:941-1038 | every unspent output of a chain that replays is an output of a transaction on it, with that output's value and owner, its block's height, and the coinbase mark exactly for a block's first transaction |
| `Provenance.SpendIsAuthorised` | core/chain.go:575-610 | every input on such a chain spends an output made earlier on it and still unspent, with a 32-byte key of its owner and a signature that verifies, and a coinbase output only after the maturity period |
| `Provenance.NothingFromNothing` | core/chain.go:611-636 | no transaction on such a chain pays out more than it takes in, and no coinbase more than the subsidy of its height plus the fees of its block |
| `Provenance.IndexedSpendIsAuthorised` | core/chain.go:673-734 | the same on every branch, main or side, of every reachable node |
| `Supply.ReplaySupply` | core/chain.go:941-1002 | after replaying any chain the unspent values are positive and sum to at most the subsidies of its heights |
| `Supply.NoTxRangeError` | core/chain.go:575-636 | against a UTXO set within the cap, checking a transaction never ends in an input-total or fee range error |
| `Supply.NoBlockRangeError` | core/chain.go:941-1002 | nor does applying a block |
| `Reachable.ReachableSupply` | core/chain.go:134-158 | in every reachable state the unspent total is at most the subsidies of heights 0..tip, which is at most 21 million coins |
| `Reachable.RangeErrorsUnreachable` | core/chain.go:575-636 | in every reachable state no transaction, and no block applied on the tip, can trigger the range errors |
| `Reachable.NoRangeRejection` | core/chain.go:673-734 | no block offered to a reachable node, on whatever branch, is rejected for a range error |
| `Outpoints.NoNullOutput` | core/chain.go:673-702 | in every reachable state no unspent output carries the null outpoint, because block size bounds output counts |
| `Invariant.GenesisInv` | core/chain.go:134-158 | the state a new chain starts in satisfies the invariant |
| `Acceptance.GenesisMeans` | core/chain.go:134-158 | field by field what a new chain holds: the fixed genesis header over one 50-coin coinbase to the null owner, and that output as the only coin |
| `Invariant.AcceptBlockInv` | core/chain.go:673-734 | accepting, storing on a side branch, reorganising to or rejecting a block keeps it: the live UTXO set is the replay of the main chain, the main list is the genesis-to-tip path, every indexed branch replays, mempool transactions are valid at the next height and pairwise disjoint |
| `Invariant.AcceptTxInv` | core/chain.go:538-569 | so does offering a transaction |
| `Invariant.RunInv` | core/chain.go:641-734 | hence every state reached by any sequence of blocks and transactions satisfies it |
| `Acceptance.BlockTakenIff` | core/chain.go:673-734 | a block is taken exactly when it is new, its parent is known, it is sane, within 1,000,000 bytes, within its time bounds, has the required bits and the right Merkle root, meets its target where that is checked, and its branch replays; its entry, and the tip, main list and coins when it has more work, are stated outright, and anything else changes nothing |
| `Acceptance.FaultIff` | core/chain.go:673-702 | the header checks pass exactly under those conditions |
| `Acceptance.SaneMeans` | core/chain.go:781-829 | what sanity demands, position by position: a coinbase first and nowhere else, positive in-range outputs, no id twice and no outpoint spent twice, within a transaction or across them |
| `Acceptance.TimestampMeans` | core/chain.go:736-775 | the time rule in bounds: at most the clock plus the drift in force at that height, and above the median past or not far below the parent |
| `Acceptance.TakenMeetsTarget` | core/chain.go:697-699 | a block taken with the proof-of-work check has a hash value at most its own target, which is positive and at most the network's maximum |
| `Acceptance.RunMeetsTargets` | core/chain.go:641-734 | in every run whose blocks are all checked, every indexed block above genesis meets its own target |
| `Acceptance.MempoolAfterTip` | core/chain.go:925-931 | after a new tip the mempool is exactly what was in it and is still valid for the next block |
| `Acceptance.TxAddedIff` | core/chain.go:538-569 | a transaction is added exactly when it is no coinbase, not pooled, spends nothing a pooled one spends and is valid for the next block |
| `Reachable.ForkChoice` | core/chain.go:703-734 | the tip has the greatest cumulative work of all indexed blocks, and a block either leaves the tip or strictly increases its work |
| `Acceptance.TipByTotalWork` | core/chain.go:703-734 | at a reachable node a block taken becomes the tip exactly when its branch sums to more work than the main chain |
| `Reachable.WorkIsSum` | core/chain.go:703-711 | each entry's cumulative work is the sum over its ancestors, every one of which adds at least one |
| `Reachable.BranchFromGenesis` | core/chain.go:853-864 | every indexed block's branch is attached and starts at genesis |
| `ChainNode.ReplayOnTip` | core/chain.go:876-923 | replaying a branch that extends the tip by one block is applying that block to the live UTXO set, the fact that lets the fast path replace the slow one |
| `ChainNode.MainAccessors` | core/chain.go:511-515 | looking heights up in the main list gives the required bits of the tip's branch and never asks for a missing height |
| `ChainNode.AncestorAccessors` | core/chain.go:833-850 | so does walking ancestors, on any branch |
| `ChainNode.SequenceFacts` | core/chain.go:398-447 | every position of the main chain satisfies what the sequence validator tests |
| `UndoLog.RecordedWrite` | core/chain.go:1018-1038 | writing an output after recording it unwinds to the map before |
| `UndoLog.RecordedDelete` | core/chain.go:1018-1038 | deleting an output after recording it unwinds to the map before |
| `BlockSanity.CheckBlockSanity` | core/chain.go:781-829 | the loop accepts exactly the blocks with one leading coinbase, distinct ids, no outpoint spent twice and in-range outputs |
| `BlockSanity.ScanTx` | core/chain.go:787-827 | one transaction of the scan extends the sane prefix exactly when the checks on it pass |
| `BlockSanity.MarkSpent` | core/chain.go:802-809 | marks inputs and refuses exactly when an outpoint was spent before in the block |
| `BlockSanity.ScanOutputs` | core/chain.go:810-826 | the output loop computes the checked output sum or its first error |
| `ChainNode.Chain.AtGenesis` | core/chain.go:134-158 | a new chain is the genesis state of the simple form and satisfies the invariant |
| `ChainNode.Chain.CheckTx` | core/chain.go:575-636 | the loops over inputs and outputs compute the ordered check against the live UTXO map and change nothing |
| `ChainNode.Chain.ScanInputs` | core/chain.go:579-610 | the input loop computes the ordered input check and total |
| `ChainNode.Chain.SpendAndCreateWithUndo` | core/chain.go:1018-1038 | spends inputs and writes outputs in place, and the extended log still unwinds to the original map |
| `ChainNode.Chain.Rollback` | core/chain.go:941-952 | undoing the log backwards restores the map, even where an output was created and spent or overwritten in the same block |
| `ChainNode.Chain.ValidateAndApply` | core/chain.go:941-1002 | either the live map becomes the block applied to it, or the same error as the simple form is reported and the map is exactly as before |
| `ChainNode.Chain.ApplyTransactions` | core/chain.go:954-968 | applies transactions in order with a log that unwinds to the start, or stops at the first error |
| `ChainNode.Chain.CheckBlockTimestamp` | core/chain.go:736-775 | walking back over ancestors and sorting decides exactly the timestamp rule of the branch |
| `ChainNode.Chain.CollectTimes` | core/chain.go:755-766 | walking back collects the last times of the branch, fewer near genesis |
| `ChainNode.Chain.BitsOnBranch` | core/chain.go:833-850 | returns the bits the branch requires |
| `ChainNode.Chain.BranchTo` | core/chain.go:853-864 | the table of ancestors by height is the branch |
| `ChainNode.Chain.ReplayBranch` | core/chain.go:904-923 | rebuilding from an empty map gives the replay of the branch and its ids, or its first error, without touching live state |
| `ChainNode.Chain.EvictMempool` | core/chain.go:925-931 | keeps exactly the mempool transactions still valid at the next height |
| `ChainNode.Chain.ConnectTip` | core/chain.go:876-884 | the fast path adopts the new tip exactly as the simple form would, or changes nothing |
| `ChainNode.Chain.ConnectBranch` | core/chain.go:889-900 | the slow path adopts the new branch exactly as the simple form would, or changes nothing |
| `ChainNode.Chain.AcceptBlock` | core/chain.go:673-734 | state and outcome are those of the simple form, which always replays from genesis; a rejected block leaves every field as it was |
| `ChainNode.Chain.VetHeader` | core/chain.go:682-702 | the checks before attaching find the fault the simple form finds, if any |
| `ChainNode.Chain.Attach` | core/chain.go:703-734 | side branch, fast path or reorganisation, with the simple form's state and outcome |
| `ChainNode.Chain.AcceptTx` | core/chain.go:538-569 | state and outcome are those of the simple form |
| `ChainNode.Chain.ValidatedCanonicalSequence` | core/chain.go:398-447 | on a chain that satisfies the invariant the validator reports no error and returns the branch from genesis to the tip |
| `Template.ValidateTemplateCoinbase` | core/miner.go:111-139 | accepts exactly coinbases that commit to the height, carry no signature and pay the reward in positive in-range outputs |
| `Template.TxsSizeIsLength` | core/miner.go:56-80 | the running byte total is the true encoded length of the chosen transactions |
| `Template.SelectTxs` | core/miner.go:54-80 | the loop with running size and fee totals returns the selection's definition |
| `Template.BuildTemplate` | core/miner.go:40-105 | the whole builder, over one view of the chain, returns the template's definition or fails where it does |
| `Template.CompatibleApplies` | core/miner.go:58-105 | valid transactions that do not compete all apply one after another, and their fees add up |
| `TemplateTheorems.PickIsPrefix` | core/miner.go:58-80 | on a sound mempool no transaction is skipped: the selection is the longest prefix that fits |
| `TemplateTheorems.TemplateIsValid` | core/miner.go:40-105 | a template pays exactly subsidy plus fees, is within the size limit, and passes sanity and contextual validation, transaction ids assumed not to repeat |
| `TemplateTheorems.TemplateContents` | core/miner.go:40-105 | what a template holds: the header field by field, the builder's coinbase for subsidy plus fees at this height, and the longest run of pooled transactions in listing order that fits |
| `TemplateTheorems.MinedTemplateAccepted` | core/miner.go:40-105 | once a nonce meets the target and the id is new, the mined template becomes the new tip if its time is acceptable |
| `TemplateTheorems.MinedTemplateIff` | core/miner.go:89-95 | and only then: the template carries the local clock, so the exact condition is that this time passes the chain's time rule |
| `TemplateTheorems.StandardTemplateIff` | core/miner.go:26-53 | a standard template exists exactly while the next height still earns a subsidy; after that fees alone never make one |
| `Snapshot.FrameRoundTrip` | core/store.go:306-417 | a length-framed block is read back, whatever follows it |
| `Snapshot.SaveLoadRoundTrip` | core/store.go:306-417 | the bytes of a reachable chain of storable blocks replay, under a clock not behind, to the same main chain, tip, work and UTXO map with an empty mempool |
| `Store.SoundEncodes` | core/store.go:379-417 | encoding never fails on a state the node can be in |
| `Store.SavedChainLoads` | core/store.go:276-377 | the bytes of a reachable chain of storable blocks pass both the self-validation and the canonical check, and load as the same main chain, tip, work and UTXO map |
| `Store.LoadedIsSound` | core/store.go:276-359 | a file that loads gives a chain that satisfies the invariant, encodes back to exactly those bytes and has an empty mempool |
| `Store.LoadedLater` | core/store.go:306-359 | a file that loads keeps loading, with the same result, under any later clock |
| `Store.SaveIsSafe` | core/store.go:225-304 | whatever the candidate, a save keeps a loadable file loadable and never lowers its work; each outcome has its exact condition, and a replaced file loads back with the candidate's tip and height |
| `Store.DurableWorkNeverDecreases` | core/store.go:225-304 | over any interleaving of saves by any chains at all, with a clock that does not go back, the durable work never decreases |
| `Store.FileStore.Encode` | core/store.go:379-417 | the loop writes exactly the framed main chain, and never fails on a chain the node can be in |
| `Store.FileStore.Decode` | core/store.go:306-359 | the loop accepts exactly the files that replay block by block from genesis, and yields that chain |
| `Store.FileStore.Read` | core/store.go:276-304 | accepts exactly the files that replay and encode back to the same bytes |
| `Store.FileStore.Validate` | core/store.go:361-377 | returns the candidate's bytes exactly when they load back as the candidate |
| `Store.FileStore.SaveSnapshot` | core/store.go:225-272 | the file and the outcome are those of the save's definition: self-validation of the candidate, canonical check of the old file, then the work comparison |
| `Store.FileStore.LoadInto` | core/store.go:101-149 | the chain becomes the stored one exactly when it was empty and the file is absent or replays and encodes back to the same bytes; otherwise it is left exactly as it was |
| `WalletHistory.ChainScan` | core/wallet_view.go:140-242 | scanning a validating chain succeeds exactly when no transaction id repeats, and its unspent outputs are then the UTXO map |
| `WalletTheorems.ScanHistory` | core/wallet_view.go:140-242 | the nested loops over blocks, inputs and outputs compute the history scan |
| `WalletTheorems.ScanHistoryTx` | core/wallet_view.go:145-241 | one transaction's inputs are marked and outputs recorded, or the first error reported |
| `WalletLoops.ReserveMempool` | core/wallet_view.go:244-318 | the loops over mempool inputs and outputs reserve what the mempool spends, or report its definition's error |
| `WalletTheorems.ListOutputs` | core/wallet_view.go:320-351 | succeeds exactly when both totals are in range, and then lists exactly the owned spendable and immature outputs with exact totals |
| `WalletLoops.ComputeView` | core/wallet_view.go:122-381 | the three passes together return the view's definition, its first error included |
| `WalletTheorems.ViewFromChain` | core/wallet_view.go:122-381 | the view succeeds exactly when no transaction id repeats on the main chain; it is then the owned mature UTXO entries not spent by the mempool and the owned immature coinbases, with exact totals |
| `WalletTheorems.ReachableView` | core/wallet_view.go:122-381 | the same in every reachable state |
| `WalletFunds.ViewMeans` | core/wallet_view.go:320-351 | an owner's output is listed spendable exactly when it is unspent, not spent by the mempool and not a coinbase output short of maturity at the next block; immature exactly when it is such a coinbase output, and then no transaction spending it is valid in the next block |
| `ViewFailure.RepeatedCoinbaseAccepted` | core/chain.go:673-734 | a block on the tip whose coinbase repeats an earlier block's is accepted as the new tip: nothing checks the coinbase's height |
| `ViewFailure.ViewFailsReachably` | core/wallet_view.go:176-190 | and from any reachable state it leads to a reachable state on which the view is an error, whoever asks |
| `ViewFailure.GenesisCoinbaseRepeats` | core/chain.go:941-1002 | the smallest case: on every network the genesis coinbase may be paid again at height 1 |
| `WalletTheorems.ReservedByMempool` | core/wallet_view.go:259-272 | what the view reserves is exactly what some mempool transaction spends |
| `Apportion.LeftoverBounds` | pool/pplns.go:499-524 | after rounding down, fewer units are left over than there are addresses |
| `Apportion.WinnersHaveRemainders` | pool/pplns.go:515-527 | a leftover unit goes only to an address with a non-zero remainder |
| `Apportion.SharesSumToReward` | pool/pplns.go:475-544 | the shares add up to exactly the reward |
| `Apportion.FloorOrCeiling` | pool/pplns.go:475-544 | each share is the floor or the ceiling of the exact one |
| `Payouts.OutputsFromWork` | pool/pplns.go:475-544 | two passes over the map in arbitrary order, two sorts and the leftover loop return a function of weights and reward alone, so map order cannot show |
| `Payouts.CheckWeights` | pool/pplns.go:488-498 | succeeds exactly when every weight is valid and then returns the total work, in any map order |
| `Payouts.HandOut` | pool/pplns.go:525-527 | the first leftover-many records gain one unit, the rest nothing |
| `Payouts.Emit` | pool/pplns.go:531-544 | emits the outputs in order or fails exactly on an empty one; the exact-sum checks always hold |
| `Payouts.PayoutsExhaustReward` | pool/pplns.go:475-544 | successful payouts are one positive output per address in address order, adding up to the reward |
| `Payouts.EachPaidFloorOrCeiling` | pool/pplns.go:475-544 | each paid amount is within one unit of reward * work / total |
| `Payouts.PaidExactly` | pool/pplns.go:499-544 | to the unit: an address is paid its share rounded down, and one more exactly when no more addresses with a larger remainder, or an equal one and no greater address, exist than leftover units |
| `Payouts.PayableMeans` | pool/pplns.go:475-498 | what an allocation presupposes of reward, addresses and work |
| `Payouts.WinsIff` | pool/pplns.go:515-527 | a leftover unit goes to an address exactly when no more addresses are ranked at or before it than there are leftover units |
| `Payouts.PayoutsIff` | pool/pplns.go:475-544 | on valid weights the allocation succeeds exactly when every address owed less than one whole unit has at most as many addresses ranked at or before it, by remainder and then address, as there are leftover units |
| `Payouts.WholeUnitsSuffice` | pool/pplns.go:531-543 | corollary: it succeeds whenever every address is owed at least one whole unit |
| `Payouts.StarvedAddress` | pool/pplns.go:482-544 | corollary: work 1 and 9 with a reward of 2 starves the smaller address, although the reward covers one unit per address |
| `WindowWeights.WorkConserved` | pool/pplns.go:452-460 | grouping shares by address neither creates nor loses work |
| `WindowWeights.CreditedOwnShares` | pool/pplns.go:452-460 | each address is credited with the work and the number of exactly its own shares |
| `WindowWeights.WindowWorkFits` | pool/pplns.go:488-498 | the total work of any valid window, and of each address in it, fits in 268 bits |
| `WindowWeights.WindowPayableIff` | pool/pplns.go:475-498 | on a valid window the input checks fail only if the reward is below the number of addresses or above the cap |
| `WindowWeights.PayoutsOfWindow` | pool/pplns.go:439-462 | checks the window, groups its work and allocates, as the definition does |
| `WindowWeights.WeightsOfWindow` | pool/pplns_coordinator.go:500-520 | one row per address in address order with its share count and work, whatever the map order |
| `ShareWindow.ValidateState` | pool/pplns.go:260-309 | the single pass accepts exactly windows with valid contiguous shares, distinct keys, the right next sequence and few enough addresses, 64-bit wrap-around included |
| `ShareWindow.PplnsWindow.AcceptShare` | pool/pplns.go:353-401 | appends with the next sequence and drops the oldest, or leaves the window exactly as it was with the reason |
| `ShareWindow.AcceptedIff` | pool/pplns.go:353-401 | a share is accepted exactly when well formed, new, within the network maximum, within the address limit, and written |
| `ShareWindow.UsableMeans` | pool/pplns.go:260-309 | what a valid window holds, share by share |
| `ShareWindow.WindowIsLastN` | pool/pplns.go:353-401 | in every run from any valid window, new or restored, the window is the last N accepted shares, numbered without gaps |
| `ShareWindow.ByteLimitCapsWindow` | pool/pplns.go:385-392 | the 256 KiB limit caps any window at 1170 shares or fewer, counting the hexadecimal fields alone, so a larger configured window never fills and then refuses every share |
| `PoolDesk.PplnsCoordinator.StoreReceiptLocked` | pool/pplns_coordinator.go:395-407 | replaces an existing receipt in place, or evicts oldest ones until there is room and appends |
| `PoolDesk.PplnsCoordinator.ReleaseSubmission` | pool/pplns_coordinator.go:409-415 | forgets the nonce only if the same job is still live |
| `PoolDesk.PplnsCoordinator.DropStale` | pool/pplns_coordinator.go:349-357 | drops the job only if the same job is still live |
| `PoolDesk.PplnsCoordinator.PruneLocked` | pool/pplns_coordinator.go:417-431 | the in-place filter removes expired jobs and dead ids and keeps the order of the rest |
| `PoolDesk.PplnsCoordinator.EvictOldestLocked` | pool/pplns_coordinator.go:433-442 | removes the first live job in order and everything before it |
| `PoolDesk.PplnsCoordinator.InsertJob` | pool/pplns_coordinator.go:273-284 | prunes, evicts and inserts; the eviction loop terminates because every live job is listed |
| `PoolDesk.PplnsCoordinator.BeginSubmit` | pool/pplns_coordinator.go:299-338 | the first locked section: receipt, job, expiry, tip, duplicate and limit checks in that order, then the nonce is reserved |
| `PoolDesk.PplnsCoordinator.FinishWin` | pool/pplns_coordinator.go:383-388 | files the block receipt and clears all jobs |
| `PoolDesk.DropOldestFacts` | pool/pplns_coordinator.go:400-404 | dropping oldest receipts always makes room and alters none it keeps |
| `PoolDesk.DropOldestExact` | pool/pplns_coordinator.go:400-404 | exactly the oldest receipts go, and exactly as many as it takes to make room for one |
| `PoolDesk.StoreReceiptFacts` | pool/pplns_coordinator.go:395-407 | storing keeps the receipt list exact and within its limit, and touches no other receipt |
| `PoolDesk.PruneFacts` | pool/pplns_coordinator.go:417-431 | pruning keeps exactly the unexpired listed jobs, unchanged |
| `PoolDesk.PruneOrder` | pool/pplns_coordinator.go:417-431 | the jobs kept stay in the order they were issued |
| `PoolDesk.EvictUntilFacts` | pool/pplns_coordinator.go:275-277 | eviction always ends below the limit and leaves the survivors unchanged and listed |
| `PoolDesk.EvictUntilExact` | pool/pplns_coordinator.go:275-277 | the jobs evicted are the oldest live ones, and exactly as many as it takes to make room for one |
| `PoolDesk.AddJobFacts` | pool/pplns_coordinator.go:273-284 | after insertion the new job is live, listed and within the limit, and every other live job is an old one unchanged |
| `PoolDesk.AddJobExact` | pool/pplns_coordinator.go:273-284 | after issuing, exactly the unexpired jobs less the oldest in excess are live, in order, with the new one last |
| `PoolProtocol.StepInv` | pool/pplns_coordinator.go:299-442 | every lock-delimited step of any call keeps the protocol invariant |
| `PoolProtocol.RunInv` | pool/pplns_coordinator.go:299-442 | so does every interleaving of issuing and submitting, from a new or a restored window, job ids not repeating |
| `PoolProtocol.PoolSafety` | pool/pplns_coordinator.go:299-442 | no (job, nonce) is ever accepted twice, the window is the last N accepted shares without gaps, and jobs, nonces per job and receipts stay within their limits |
| `PoolAudit.SharesAreEarned` | pool/pplns_coordinator.go:299-382 | in every interleaving, each share accepted since the start goes back to a job issued earlier in the run and a submission before it expired, on the job's tip at both looks, whose header's hash value is at most the job's share target; the share records that job's address and target and that hash |
| `PoolAudit.BlocksAreWon` | pool/pplns_coordinator.go:372-388 | each receipt that reports a block names a header whose hash value meets the network target and which consensus took |
| `PoolAudit.CallsAreChecked` | pool/pplns_coordinator.go:343-388 | in every run a call past its check is within the share target, and one submitting a block within the network target |
| `PoolAudit.ChecksDecide` | pool/pplns_coordinator.go:343-374 | both checks decide exactly by the hash value: above the share target the call ends, and recording leads on to the block exactly within the network target |
| `PoolProtocol.ReceiptsAgree` | pool/pplns_coordinator.go:367-388 | receipts for one submission seen at two moments carry the same sequence, hash and height, even across eviction |
| `PoolProtocol.StatusOnlyAdvances` | pool/pplns_coordinator.go:367-388 | a retained receipt's status only moves from share to block |
| `PoolProtocol.RetryOutcome` | pool/pplns_coordinator.go:299-312 | repeating an accepted submission never enters the window; it returns a receipt, with the original sequence, exactly while the receipt is retained |
| `PoolProtocol.EvictedReceiptIsRefused` | pool/pplns_coordinator.go:395-407 | with room for one receipt, a second share evicts the first and repeating the first is refused as a duplicate |
| `PoolSubmit.SubmitShare` | pool/pplns_coordinator.go:299-389 | a call run by itself is the run of its sections in order, returns the answer of that run, and an acknowledged receipt is on file when it returns |
| `PoolSubmit.AnswerMeans` | pool/pplns_coordinator.go:299-389 | each refusal and each receipt of an undisturbed call has its exact condition on job, clock, tips, hash value, window and consensus |
| `PoolSubmit.SubmitLeaves` | pool/pplns_coordinator.go:299-415 | what each answer leaves behind: jobs dropped, nonces used or given back, jobs cleared by a block, and the window grown exactly when the share was taken |
| `PoolWork.ParsePoolWork` | pool/pplns_work.go:41-107 | accepts exactly the jobs that satisfy the stated conditions on envelope, window, coinbase proof and targets, and returns the decoded header and both targets |
| `PoolWork.ValidateCoinbaseProof` | pool/pplns_work.go:109-211 | the loops over outputs and rows decide the coinbase conditions |
| `PoolWork.CheckRows` | pool/pplns_work.go:152-171 | accepts exactly rows of valid, strictly ascending addresses with share counts and work in range, and collects their work and total |
| `PoolWork.AddOutputs` | pool/pplns_work.go:123-129 | totals the outputs, refusing exactly when one is not positive and in range or the sum exceeds the cap |
| `PoolWork.CheckBasis` | pool/pplns_work.go:172-210 | decides the requester and window conditions |
| `PoolWork.RowsCarryWork` | pool/pplns_work.go:152-202 | the advertised rows carry exactly the window's work |
| `PoolWork.AcceptedPaysWindow` | pool/pplns_work.go:182-206 | an accepted window-based job pays the committed window's allocation of its whole reward, at least the subsidy, from a coinbase the header commits to |
| `PoolWork.AcceptedMeans` | pool/pplns_work.go:41-211 | what a miner learns from an accepted job of either basis: network, parameters, no fee, zero nonce, both targets, height, subsidy, and the coinbase's and the window's commitments |
| `PoolWork.CommitmentBinds` | pool/pplns_work.go:133-136 | a coinbase tag commits to one state hash only |
| `PoolIssue.IssuedIsAcceptable` | pool/pplns_coordinator.go:198-295 | every job issued with a positive network target passes the client's check |
| `PoolIssue.IssuedMeans` | pool/pplns_coordinator.go:198-295 | what an issued job is: tip, time, bits and height, the network target and the capped multiple of it, the window, and a coinbase that pays the whole reward to the window's allocation or, while it is empty, to the requester |
| `PoolIssue.IssuedOnChain` | pool/pplns_coordinator.go:198-295 | on every reachable chain state, where the target is within the maximum |
| `PoolIssue.WinningShareIsBlock` | pool/pplns_coordinator.go:372-388 | on an unchanged chain, an issued job's header whose hash value meets the network target is taken as the new tip, if its time passes the time rule |
| `PoolIssue.WindowRowsOk` | pool/pplns_coordinator.go:500-520 | the rows of a valid window pass the client's row checks |
| `PoolIssue.RowsCountShares` | pool/pplns_coordinator.go:500-520 | the rows count every share of the window once |
| `Signing.Sign` | core/tx.go:102-117 | public keys are set before the digest is taken and signatures after; refuses a wrong number of keys |
| `Signing.SigningBytesIgnoreSigs` | core/tx.go:69-90 | the signing serialization does not depend on signatures |
| `Signing.SigningBytesBind` | core/tx.go:67-90 | what is signed commits to everything but the signatures: transactions within the limits have the same signing bytes exactly when they differ in signatures alone |
| `Signing.SignedVerifies` | core/tx.go:99-117 | every input of a signed transaction verifies, given keys that verify what they sign and a digest that hashes the signing bytes |
| `Signing.SignedSize` | core/tx.go:69-90 | the encoded size of a signed transaction, from its input and output counts alone |
| `Selection.PlaceTop` | wallet/wallet.go:779-797 | keeping the best k of the candidates seen so far loses nothing |
| `Selection.BestPrefix` | wallet/wallet.go:768-776 | no n candidates are worth more than the n best |
| `Selection.FewestInputs` | wallet/wallet.go:778-825 | no admissible set of candidates that reaches the amount is smaller than the greedy one; if the greedy one falls short none reaches it |
| `Payment.CollectBest` | wallet/wallet.go:779-801 | yields the best 10,000 eligible outputs in order, or fails exactly on an inconsistent eligible output; the bounded heap is a best-first list, which the final sort leaves as it is |
| `Payment.TakeInputs` | wallet/wallet.go:802-825 | takes the fewest best candidates that cover the need, or all of them, or reports the range error exactly when their sum exceeds the cap |
| `Payment.BuildPayment` | wallet/wallet.go:778-838 | the whole builder returns the plan's definition: selection, change, signing and size limit |
| `PaymentTheorems.PaymentFewest` | wallet/wallet.go:778-838 | a prepared payment uses the fewest inputs of any eligible set covering amount plus fee |
| `PaymentTheorems.PaymentSucceedsIff` | wallet/wallet.go:778-838 | a payment can be prepared exactly when 74 or fewer eligible outputs cover amount plus fee |
| `PaymentTheorems.PaymentBalances` | wallet/wallet.go:778-838 | it spends only eligible outputs, touches no excluded one, pays the amount and leaves exactly the fee |
| `PaymentTheorems.PaymentPays` | wallet/wallet.go:820-838 | the first output pays the destination the amount; what the inputs hold beyond amount and fee goes back to the first key in a second output, and there is no other; each input carries its owner's key |
| `PaymentTheorems.LargestFirst` | wallet/wallet.go:768-825 | no output left behind ranks before one taken, and one input fewer would not cover amount plus fee |
| `PaymentTheorems.EligibleExact` | wallet/wallet.go:779-797 | the candidates are the snapshot's outputs that are not excluded, one for one |
| `PaymentTheorems.PaymentAdmitted` | wallet/wallet.go:778-838 | on a reachable state, a payment from an anchored snapshot is valid at the next height, pays the fee and is admitted to the mempool |
| `WalletFunds.SnapshotWithKeys` | wallet/wallet.go:1079-1144 | accepts exactly listings with matching owners, distinct outpoints and an in-range total, and returns them with that total |
| `WalletFunds.UsableMeans` | wallet/wallet.go:1110-1130 | every output of an accepted listing belongs to the key it is attributed to, none is listed twice, and amounts and total are in range |
| `WalletFunds.ViewAnchors` | wallet/wallet.go:1079-1144 | a snapshot taken from a successful wallet view lists outputs the chain will let be spent |
| `WalletFunds.WalletPaymentAdmitted` | core/chain.go:538-636 | end to end: a payment prepared from the wallet's own snapshot pays the destination and is admitted by the unchanged chain |
| `Maximum.ScanSnapshot` | wallet/maximum.go:99-131 | accepts exactly consistent snapshots and returns the eligible total and count |
| `Maximum.BuildMaximum` | wallet/maximum.go:93-146 | returns the plan's definition; the final self-checks of the code always hold |
| `Maximum.MaximumIsWhole` | wallet/maximum.go:93-146 | a maximum send spends every eligible output and has one output, the total less the fee |
| `Maximum.MaximumIff` | wallet/maximum.go:93-146 | it succeeds exactly when the snapshot is consistent, the total exceeds the fee and at most 74 outputs are eligible |
| `Maximum.MaximumPresupposes` | wallet/maximum.go:93-131 | what a successful maximum send presupposes of limits, owners, distinct outpoints and the stated total |
| `Cleanup.GroupByKey` | wallet/consolidation.go:119-158 | groups the eligible outputs by key with exact totals |
| `Cleanup.ListWorth` | wallet/consolidation.go:163-174 | lists exactly the groups of two or more worth more than the fee, and whether any group has two |
| `Cleanup.PrefixSums` | wallet/consolidation.go:195-209 | prefix sums, and the least prefix of two or more that exceeds the fee |
| `Cleanup.LargestPrefix` | wallet/consolidation.go:218-233 | bisection finds the largest prefix whose signed transaction fits |
| `Cleanup.BuildCleanup` | wallet/consolidation.go:111-247 | merges the largest fitting smallest-first prefix of the first worthwhile key back to that key less the fee, reports exactly whether more is left to merge, and each refusal has its exact reason |
| `Cleanup.CleanupCount` | wallet/consolidation.go:210-234 | in numbers: all of the key's eligible outputs, or the 74 smallest |
| `Cleanup.CleanupMeans` | wallet/consolidation.go:190-275 | a cleanup spends eligible outputs of one key with that key and pays them, less the fee, in one output back to it |
| `Cleanup.SmallestMerged` | wallet/consolidation.go:188-193 | no eligible output of that key left behind is smaller than one taken |
| `Cleanup.BusiestKey` | wallet/consolidation.go:181-187 | no other worthwhile key has more eligible outputs, or as many under a lesser address |
| `WalletFunds.CleanupAdmitted` | wallet/consolidation.go:111-275 | on a reachable state, a cleanup from an anchored snapshot is admitted, pays its fee and uses no excluded outpoint |
| `Slots.StepKeeps` | p2p/p2p.go:209-438 | every locked section keeps the slot bounds, whatever its arguments |
| `Slots.SlotBounds` | p2p/p2p.go:209-438 | in every run: at most 32 peers and handshakes, 28 of them inbound, 4 outbound and 8 inbound handshakes, 2 per address, and the dial table is exactly the outbound handshakes |
| `Slots.RegisterHasRoom` | p2p/p2p.go:389-392 | the peer-limit check of registration never fires |
| `PeerBook.HolderChangesIff` | p2p/p2p.go:363-423 | registering under a taken key changes its holder exactly when the reservation stands and the newcomer comes from the same known address with a strictly smaller tie key at most 15 seconds apart; under a free key, exactly when the reservation stands |
| `PeerBook.HolderKeepsPlace` | p2p/p2p.go:363-438 | a connected peer keeps its key through any events in which no such rival registers and it is not torn down |
| `PeerBook.GoneMeans` | p2p/p2p.go:425-438 | what a connection gives up when it ends, and that only the holder gives anything up |
| `PeerBook.InboundAdmittedIff` | p2p/p2p.go:305-333 | an incoming handshake gets a slot exactly below 32 in all, 28 incoming, 8 incoming handshakes and 2 from its address |
| `PeerBook.DialRoomMeans` | p2p/p2p.go:213-225 | the room for dials in numbers |
| `PeerBook.DialsAreNew` | p2p/p2p.go:227-253 | a round dials only known addresses that are not suppressed, not being dialled and not a connected peer's |
| `PeerBook.AddressBook` | p2p/p2p.go:209-438 | in every run at most 1000 addresses are known beyond the configured seeds, no suppressed one is known or a target, and every target belongs to a connected peer |
| `PeerBook.RememberedMeans` | p2p/p2p.go:373-409 | which targets and addresses a registration records |
| `PeerBook.HeardMeans` | p2p/p2p.go:553-564 | an address heard of is learnt exactly when it is not empty, not suppressed and fewer than 1000 are known; seeds are exempt from the limit, and the node's own addresses are forgotten and suppressed (p2p/p2p.go:746-757) |
| `NetNode.Node.ReserveInboundHandshake` | p2p/p2p.go:305-333 | counts entry by entry and reserves exactly when every bound leaves room |
| `NetNode.Node.AddSeeds` | p2p/p2p.go:151-161 | configured seeds that are not suppressed become known without a limit and are listed once each, in the order given |
| `NetNode.FreshSeedsFacts` | p2p/p2p.go:151-161 | the seeds listed are each once and exactly the new ones |
| `NetNode.Node.CountInbound` | p2p/p2p.go:309-326 | the counting loops equal the sizes of the sets they count |
| `NetNode.Node.ReserveHandshakeLocked` | p2p/p2p.go:335-343 | a fresh token, recorded in the pending and, for a dial, in the dialing map |
| `NetNode.Node.ReleaseHandshakeLocked` | p2p/p2p.go:351-361 | releases only the very reservation, and frees its dial target |
| `NetNode.Node.RegisterPeer` | p2p/p2p.go:363-397 | kept exactly when the reservation is held and no connected peer outranks it; the displaced connection is the one returned for closing |
| `NetNode.Node.ReplaceDuplicate` | p2p/p2p.go:373-388 | a connected peer is replaced exactly when the tie-break allows it, and its targets are remembered only for the same source |
| `NetNode.Node.RememberPeerTargets` | p2p/p2p.go:399-409 | records targets that are not suppressed and learns the address while there is room |
| `NetNode.Node.UnregisterPeer` | p2p/p2p.go:425-438 | removes the peer and its targets only for the connection that holds the key |
| `NetNode.Node.IsAvailable` | p2p/p2p.go:227-245 | decides dialability and only tidies entries that cannot matter |
| `NetNode.Node.SeedCandidates` | p2p/p2p.go:255-260 | the dialable configured seeds, in configured order |
| `NetNode.Node.GossipCandidates` | p2p/p2p.go:262-268 | the dialable other addresses, each once, sorted, whatever the map order |
| `NetNode.Node.ReserveRotating` | p2p/p2p.go:269-283 | reserves the first available candidates in ring order from the cursor, up to its limit and the room, and moves the cursor past the last one |
| `NetNode.RingIsRotation` | p2p/p2p.go:269-283 | drawing from the ring is turning the list to the cursor and taking the first untaken dialable targets |
| `NetNode.Node.OpenRound` | p2p/p2p.go:284-291 | seeds in ring order from their cursor, all but one slot when gossiped addresses wait, then one gossiped address from its own cursor |
| `NetNode.Node.FillRound` | p2p/p2p.go:284-298 | opens the round and then draws on both lists until the room is used up or nothing dialable is left |
| `NetNode.Node.ReserveDialCandidates` | p2p/p2p.go:209-299 | a legal round within the room that opens with seeds in ring order and a gossiped address; no dialable candidate is left while there is room, and a gossiped address gets a slot when two or more are free |
| `TieBreak.TieKeySymmetric` | p2p/p2p.go:772-786 | both ends compute the same tie key |
| `TieBreak.TieKeysDiffer` | p2p/p2p.go:772-786 | connections between two different nodes have different keys unless both nonces agree |
| `TieBreak.TieKeyMissingIff` | p2p/p2p.go:772-799 | a key is missing exactly when one of the four identifiers is not 32 hexadecimal digits, and letter case never matters |
| `TieBreak.OneOutranks` | p2p/p2p.go:411-423 | of two crossed connections within the window exactly one outranks the other, the one with the smaller key |
| `TieBreak.WinnerStays` | p2p/p2p.go:363-438 | the smallest tie key holds the peer at the end, in whatever order rivals register and are torn down |
| `TieBreak.EitherOrder` | p2p/p2p.go:363-423 | two crossed connections registered in either order leave the one with the smaller key |
| `TieBreak.SmallerHolds` | p2p/p2p.go:363-438 | on one node, of two crossed connections the one with the smaller key holds the peer at the end, in either order among any other events and teardowns of the other |
| `TieBreak.CrossDialAgrees` | p2p/p2p.go:363-438 | two nodes that dial each other, each computing both tie keys and registering both connections in its own order, end up holding the same connection, the one with the smaller key |

## Left out

- Nil pointers, nil receivers and error message texts: errors are values of small enumerations, and the sanity and header
  rejections of a block are not told apart beyond the kinds in `Consensus`.
- Output indexes are unbounded here; the code keeps them in 32 bits, which block size limits make sufficient.
- Go data races: every mutex-held section is one atomic step. In particular a template is built from one view of the chain,
  while the code reads tip, mempool and bits under separate lock acquisitions.
- The hexadecimal and JSON layers of pool jobs, window files, messages and wallet files: fields are raw bytes, numbers or
  strings. The window's snapshot hash and encoded size are parameters.
- Files: locks, modes, durable replacement and crash behaviour. The chain file and the pool window are one atomic cell each, and
  a write either happens or does not.
- WalletTheorems.ListOutputs: the two lists are maps, so the sorted order the code puts them in is not stated.
- WalletLoops.ComputeView: without the activity list, the sorted order of the output lists, and the check that the network is
  canonical.
- WalletFunds.SnapshotWithKeys: without the sorted address list, its duplicate check, the snapshot hash and the redundant
  transaction-id and index fields of an output; snapshots received from a remote gateway are not modelled.
- Address encoding: decoding and encoding are parameters; only that the empty string is no address is assumed, where it matters.
- Payment.CollectBest: the container/heap library is not modelled; the bounded heap is a best-first list whose last element is the
  heap's root.
- Asert.CalculateAsertTarget: assumes targets of at most 2^46 bits (eight tebibytes, where a target has 256 bits), so that the code's comparisons of
  shift counts with bit lengths stay within 64 bits.
- Asert.TargetAtExponent: the same assumption.
- PoolIssue.Issue: a specification function rather than a method, because its coinbase builder is the allocation's definition;
  the worker-label check is left out.
- PoolProtocol.Step: job ids are assumed not to repeat, the copy of a stored block is assumed to decode, and whether consensus
  accepts a winning block is a parameter.
- TemplateTheorems.TemplateIsValid: assumes transaction ids do not repeat, since consensus checks them only within one block.
- ShareWindow.ByteLimitCapsWindow: assumes the encoding spells out the hexadecimal fields of each share.
- Slots.Step: tokens are unbounded, where the code counts in 64 bits.
- CheckPow on stored blocks is skipped by the code when it loads its own file, and so here (`checkPow` is a parameter).
- PPLNS status, hash-rate statistics, worker labels, the solo coordinator, pool HTTP and client code.
- Mining loops, peer messages and gossip contents, the explorer beyond its subsidy sum, the desktop, mobile and light wallets, the
  bot and the mailbox.
