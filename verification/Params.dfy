/** Network parameters (core/params.go). */
module Params {
  import opened Types

  const MAX_BLOCK_BYTES := 1_000_000

  datatype Params = Params(
    name: string,
    netMagic: U32,
    targetBlockTime: int,
    retargetInterval: int,
    coinbaseMaturity: int,
    maxTargetBits: U32,
    argonMemKiB: U32,
    argonTime: U32,
    asertActivationHeight: int,
    asertHalfLife: int,
    asertFutureDrift: int,
    asertMedianTimeBlocks: int,
    genesisTime: I64,
    genesisNonce: U64,
    genesisHeadline: seq<Byte>,
    futureDrift: int
  )

  /** `validateConsensusParams`: ASERT is either wholly absent or wholly and sensibly configured. */
  predicate ValidConsensusParams(p: Params) {
    if p.asertActivationHeight == 0 then
      p.asertHalfLife == 0 && p.asertFutureDrift == 0 && p.asertMedianTimeBlocks == 0
    else
      && p.asertActivationHeight >= 2
      && p.asertHalfLife > 0
      && p.asertFutureDrift > 0
      && p.asertMedianTimeBlocks >= 3
      && p.asertMedianTimeBlocks % 2 == 1
  }

  predicate AsertActive(p: Params, height: int) {
    p.asertActivationHeight > 0 && height >= p.asertActivationHeight
  }

  function MainNet(headline: seq<Byte>): Params {
    Params("mainnet", 0xB7C09001, 600, 2016, 100, 0x1f00ffff, 65536, 1,
           12096, 7200, 1800, 11, 1783274400, 20214, headline, 7200)
  }

  function RegTest(headline: seq<Byte>): Params {
    Params("regtest", 0xB7C09BAD, 1, 8, 2, 0x207fffff, 1024, 1,
           0, 0, 0, 0, 1751738400, 0, headline, 7200)
  }
}
