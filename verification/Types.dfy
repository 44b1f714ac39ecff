/** The node's wire-level values and the primitives it calls but does not define. */
module Types {

  datatype Option<+T> = None | Some(value: T)

  datatype Result<+T, +E> = Ok(value: T) | Err(error: E)

  type Byte = b: int | 0 <= b < 256

  function Zeros(n: nat): (r: seq<Byte>)
    ensures |r| == n
    ensures forall i :: 0 <= i < n ==> r[i] == 0
  {
    if n == 0 then [] else Zeros(n - 1) + [0]
  }

  type Hash = h: seq<Byte> | |h| == 32 witness Zeros(32)

  type Pkh = h: seq<Byte> | |h| == 20 witness Zeros(20)

  const ZERO_HASH: Hash := Zeros(32)
  const ZERO_PKH: Pkh := Zeros(20)

  type U32 = x: int | 0 <= x < 0x1_0000_0000
  type U64 = x: int | 0 <= x < 0x1_0000_0000_0000_0000
  type I64 = x: int | -0x8000_0000_0000_0000 <= x < 0x8000_0000_0000_0000

  datatype OutPoint = OutPoint(txId: Hash, idx: nat)

  datatype TxIn = TxIn(prev: OutPoint, pubKey: seq<Byte>, sig: seq<Byte>)

  datatype TxOut = TxOut(value: int, pkh: Pkh)

  datatype Tx = Tx(version: U32, ins: seq<TxIn>, outs: seq<TxOut>, lockTag: seq<Byte>)
  {
    predicate IsCoinbase() {
      |ins| == 1 && ins[0].prev == OutPoint(ZERO_HASH, 0xffff_ffff)
    }
  }

  datatype Header = Header(version: U32, prevBlock: Hash, merkleRoot: Hash, time: I64, bits: U32, nonce: U64)

  datatype Block = Block(header: Header, txs: seq<Tx>)

  /** An unspent output with the metadata validation needs. */
  datatype Entry = Entry(value: int, pkh: Pkh, height: int, coinbase: bool)

  type Utxo = map<OutPoint, Entry>

  /** SHA256d, Argon2id and Ed25519 as unknown functions. Every theorem that takes an `Env`
      therefore holds whatever these functions compute. */
  datatype Env = Env(
    txId: Tx -> Hash,
    sigDigest: Tx -> Hash,
    headerId: Header -> Hash,
    pair: (Hash, Hash) -> Hash,
    pow: Header -> nat,
    verify: (seq<Byte>, Hash, seq<Byte>) -> bool,
    pkhOf: seq<Byte> -> Pkh
  )
}
