/** Wire encodings of transactions and blocks (core/tx.go, core/block.go). */
module Wire {
  import opened Types
  import opened Bits
  import opened Varint
  import opened Compact
  import opened Params

  // ---- fixed-width integers ----

  function LE(x: nat, k: nat): (r: seq<Byte>)
    ensures |r| == k
  {
    if k == 0 then [] else [x % 256] + LE(x / 256, k - 1)
  }

  function FromLE(s: seq<Byte>): nat {
    if s == [] then 0 else s[0] + 256 * FromLE(s[1..])
  }

  lemma {:induction false} LERoundTrip(x: nat, k: nat)
    requires x < Pow256(k)
    ensures FromLE(LE(x, k)) == x
  {
    if k > 0 {
      LERoundTrip(x / 256, k - 1);
      assert LE(x, k)[1..] == LE(x / 256, k - 1);
    }
  }

  lemma {:induction false} FromLEBound(s: seq<Byte>)
    ensures FromLE(s) < Pow256(|s|)
  {
    if s != [] {
      FromLEBound(s[1..]);
    }
  }

  lemma {:induction false} WordSizes()
    ensures Pow256(4) == 0x1_0000_0000 && Pow256(8) == 0x1_0000_0000_0000_0000
  {
    assert Pow256(2) == 0x1_0000;
    assert Pow256(4) == 256 * (256 * Pow256(2));
    assert Pow256(6) == 256 * (256 * Pow256(4));
    assert Pow256(8) == 256 * (256 * Pow256(6));
  }

  function ToU32(s: seq<Byte>): U32
    requires |s| == 4
  {
    FromLEBound(s);
    WordSizes();
    FromLE(s)
  }

  function ToU64(s: seq<Byte>): U64
    requires |s| == 8
  {
    FromLEBound(s);
    WordSizes();
    FromLE(s)
  }

  /** `uint64(v)` and `int64(u)`: two's complement reinterpretation. */
  function Unsigned(v: I64): U64 {
    if v >= 0 then v else v + 0x1_0000_0000_0000_0000
  }

  function Signed(u: U64): I64 {
    if u < 0x8000_0000_0000_0000 then u else u - 0x1_0000_0000_0000_0000
  }

  function Clip(v: int): I64 {
    if -0x8000_0000_0000_0000 <= v < 0x8000_0000_0000_0000 then v else 0
  }

  // ---- encoders ----

  function VarBytes(b: seq<Byte>): seq<Byte> {
    PutUvarint(|b|) + b
  }

  function InBytes(i: TxIn, forSigning: bool): seq<Byte> {
    i.prev.txId + LE(i.prev.idx, 4) + VarBytes(i.pubKey) + (if forSigning then VarBytes([]) else VarBytes(i.sig))
  }

  function InsBytes(ins: seq<TxIn>, forSigning: bool): seq<Byte> {
    if ins == [] then [] else InBytes(ins[0], forSigning) + InsBytes(ins[1..], forSigning)
  }

  function OutBytes(o: TxOut): seq<Byte> {
    LE(Unsigned(Clip(o.value)), 8) + o.pkh
  }

  function OutsBytes(outs: seq<TxOut>): seq<Byte> {
    if outs == [] then [] else OutBytes(outs[0]) + OutsBytes(outs[1..])
  }

  lemma {:induction false} OutsLength(outs: seq<TxOut>)
    ensures |OutsBytes(outs)| == 28 * |outs|
  {
    hide LE, Clip, Unsigned;
    if outs != [] {
      OutsLength(outs[1..]);
    }
  }

  function Serialize(t: Tx, forSigning: bool): seq<Byte> {
    LE(t.version, 4) + (PutUvarint(|t.ins|) + (InsBytes(t.ins, forSigning) +
      (PutUvarint(|t.outs|) + (OutsBytes(t.outs) + VarBytes(t.lockTag)))))
  }

  function TxBytes(t: Tx): seq<Byte> {
    Serialize(t, false)
  }

  function HeaderBytes(h: Header): (r: seq<Byte>)
    ensures |r| == 88
  {
    LE(h.version, 4) + h.prevBlock + h.merkleRoot + LE(Unsigned(h.time), 8) + LE(h.bits, 4) + LE(h.nonce, 8)
  }

  function TxsBytes(txs: seq<Tx>): seq<Byte> {
    if txs == [] then [] else VarBytes(TxBytes(txs[0])) + TxsBytes(txs[1..])
  }

  function BlockBytes(b: Block): seq<Byte> {
    HeaderBytes(b.header) + (PutUvarint(|b.txs|) + TxsBytes(b.txs))
  }

  // ---- decoders ----

  /** `io.ReadFull`: all bytes or an error. */
  function ReadFull(s: seq<Byte>, n: nat): Option<(seq<Byte>, seq<Byte>)> {
    if |s| < n then None else Some((s[..n], s[n..]))
  }

  /** `bytes.Reader.Read` into an `n`-byte buffer: a short read leaves the tail zero and is not an error
      unless nothing at all could be read. */
  function ReadPadded(s: seq<Byte>, n: nat): (r: Option<(seq<Byte>, seq<Byte>)>)
    ensures r.Some? ==> |r.value.0| == n
  {
    if n == 0 then Some(([], s))
    else if s == [] then None
    else if |s| >= n then Some((s[..n], s[n..]))
    else Some((s + Zeros(n - |s|), []))
  }

  function ReadVarBytes(s: seq<Byte>, maxLen: nat): Option<(seq<Byte>, seq<Byte>)> {
    match ReadUvarint(s, 0)
    case None => None
    case Some((n, rest)) => if n > maxLen then None else ReadPadded(rest, n)
  }

  function ReadIn(s: seq<Byte>): Option<(TxIn, seq<Byte>)> {
    match ReadPadded(s, 32)
    case None => None
    case Some((id, s1)) =>
      match ReadFull(s1, 4)
      case None => None
      case Some((idx, s2)) =>
        match ReadVarBytes(s2, 128)
        case None => None
        case Some((pubKey, s3)) =>
          match ReadVarBytes(s3, 128)
          case None => None
          case Some((sig, s4)) => Some((TxIn(OutPoint(id, FromLE(idx)), pubKey, sig), s4))
  }

  function ReadIns(s: seq<Byte>, n: nat): Option<(seq<TxIn>, seq<Byte>)>
    decreases n
  {
    if n == 0 then Some(([], s))
    else
      match ReadIn(s)
      case None => None
      case Some((first, s1)) =>
        match ReadIns(s1, n - 1)
        case None => None
        case Some((more, s2)) => Some(([first] + more, s2))
  }

  function ReadOut(s: seq<Byte>): Option<(TxOut, seq<Byte>)> {
    match ReadFull(s, 8)
    case None => None
    case Some((value, s1)) =>
      match ReadPadded(s1, 20)
      case None => None
      case Some((pkh, s2)) => Some((TxOut(Signed(ToU64(value)), pkh), s2))
  }

  function ReadOuts(s: seq<Byte>, n: nat): Option<(seq<TxOut>, seq<Byte>)>
    decreases n
  {
    if n == 0 then Some(([], s))
    else
      match ReadOut(s)
      case None => None
      case Some((first, s1)) =>
        match ReadOuts(s1, n - 1)
        case None => None
        case Some((more, s2)) => Some(([first] + more, s2))
  }

  function ReadCounted(s: seq<Byte>, limit: nat): Option<(nat, seq<Byte>)> {
    match ReadUvarint(s, 0)
    case None => None
    case Some((n, rest)) => if n > limit then None else Some((n, rest))
  }

  /** `DecodeTx`. */
  function DecodeTx(s: seq<Byte>): Option<Tx> {
    match ReadFull(s, 4)
    case None => None
    case Some((version, s1)) =>
      match ReadCounted(s1, 10_000)
      case None => None
      case Some((nIn, s2)) =>
        match ReadIns(s2, nIn)
        case None => None
        case Some((ins, s3)) =>
          match ReadCounted(s3, 10_000)
          case None => None
          case Some((nOut, s4)) =>
            match ReadOuts(s4, nOut)
            case None => None
            case Some((outs, s5)) =>
              match ReadVarBytes(s5, 256)
              case None => None
              case Some((tag, s6)) =>
                if s6 != [] then None else Some(Tx(ToU32(version), ins, outs, tag))
  }

  function ReadTxs(s: seq<Byte>, n: nat): Option<(seq<Tx>, seq<Byte>)>
    decreases n
  {
    if n == 0 then Some(([], s))
    else
      match ReadVarBytes(s, MAX_BLOCK_BYTES)
      case None => None
      case Some((raw, s1)) =>
        match DecodeTx(raw)
        case None => None
        case Some(first) =>
          match ReadTxs(s1, n - 1)
          case None => None
          case Some((more, s2)) => Some(([first] + more, s2))
  }

  function DecodeHeader(s: seq<Byte>): Header
    requires |s| == 88
  {
    Header(ToU32(s[0..4]), s[4..36], s[36..68], Signed(ToU64(s[68..76])), ToU32(s[76..80]), ToU64(s[80..88]))
  }

  /** `DecodeBlock`. */
  function DecodeBlock(s: seq<Byte>): Option<Block> {
    if |s| < 88 || |s| > MAX_BLOCK_BYTES + 16 then None
    else
      match ReadUvarint(s[88..], 0)
      case None => None
      case Some((n, rest)) =>
        if n == 0 || n > 100_000 then None
        else
          match ReadTxs(rest, n)
          case None => None
          case Some((txs, tail)) => if tail != [] then None else Some(Block(DecodeHeader(s[..88]), txs))
  }

  // ---- decoding what was encoded ----

  predicate InFits(i: TxIn) {
    i.prev.idx < 0x1_0000_0000 && |i.pubKey| <= 128 && |i.sig| <= 128
  }

  predicate OutFits(o: TxOut) {
    -0x8000_0000_0000_0000 <= o.value < 0x8000_0000_0000_0000
  }

  /** Within the decoder's limits. */
  predicate TxFits(t: Tx) {
    && |t.ins| <= 10_000 && (forall i :: 0 <= i < |t.ins| ==> InFits(t.ins[i]))
    && |t.outs| <= 10_000 && (forall i :: 0 <= i < |t.outs| ==> OutFits(t.outs[i]))
    && |t.lockTag| <= 256
  }

  predicate BlockFits(b: Block) {
    && 0 < |b.txs| <= 100_000 && (forall i :: 0 <= i < |b.txs| ==> TxFits(b.txs[i]))
    && |BlockBytes(b)| <= MAX_BLOCK_BYTES + 16
    && (forall i :: 0 <= i < |b.txs| ==> |TxBytes(b.txs[i])| <= MAX_BLOCK_BYTES)
  }

  lemma {:induction false} Take(a: seq<Byte>, b: seq<Byte>)
    ensures ReadFull(a + b, |a|) == Some((a, b))
    ensures ReadPadded(a + b, |a|) == Some((a, b))
  {
    assert (a + b)[..|a|] == a && (a + b)[|a|..] == b;
  }

  lemma {:induction false} VarBytesRoundTrip(b: seq<Byte>, rest: seq<Byte>, maxLen: nat)
    requires |b| <= maxLen < 0x1_0000_0000
    ensures ReadVarBytes(VarBytes(b) + rest, maxLen) == Some((b, rest))
  {
    assert VarBytes(b) + rest == PutUvarint(|b|) + (b + rest);
    UvarintRoundTrip(|b|, b + rest);
    Take(b, rest);
  }

  lemma {:induction false} CountRoundTrip(n: nat, rest: seq<Byte>, limit: nat)
    requires n <= limit < 0x1_0000_0000
    ensures ReadCounted(PutUvarint(n) + rest, limit) == Some((n, rest))
  {
    UvarintRoundTrip(n, rest);
  }

  lemma {:induction false} InRoundTrip(i: TxIn, rest: seq<Byte>)
    requires InFits(i)
    ensures ReadIn(InBytes(i, false) + rest) == Some((i, rest))
  {
    hide ReadPadded, ReadFull, ReadVarBytes, VarBytes, LE, FromLE;
    var id, idx, key, sig := i.prev.txId, LE(i.prev.idx, 4), VarBytes(i.pubKey), VarBytes(i.sig);
    assert InBytes(i, false) + rest == id + (idx + (key + (sig + rest)));
    Take(id, idx + (key + (sig + rest)));
    Take(idx, key + (sig + rest));
    VarBytesRoundTrip(i.pubKey, sig + rest, 128);
    VarBytesRoundTrip(i.sig, rest, 128);
    WordSizes();
    LERoundTrip(i.prev.idx, 4);
  }

  lemma {:induction false} InsRoundTrip(ins: seq<TxIn>, rest: seq<Byte>)
    requires forall i :: 0 <= i < |ins| ==> InFits(ins[i])
    ensures ReadIns(InsBytes(ins, false) + rest, |ins|) == Some((ins, rest))
  {
    hide ReadIn, InBytes, InFits;
    if ins == [] {
      assert InsBytes(ins, false) + rest == rest;
    } else {
      var more := InsBytes(ins[1..], false) + rest;
      assert InsBytes(ins, false) + rest == InBytes(ins[0], false) + more;
      InRoundTrip(ins[0], more);
      InsRoundTrip(ins[1..], rest);
      assert [ins[0]] + ins[1..] == ins;
    }
  }

  lemma {:induction false} SignedRoundTrip(v: I64)
    ensures Signed(Unsigned(v)) == v
  {
  }

  lemma {:induction false} OutRoundTrip(o: TxOut, rest: seq<Byte>)
    requires OutFits(o)
    ensures ReadOut(OutBytes(o) + rest) == Some((o, rest))
  {
    hide ReadPadded, ReadFull, LE, FromLE, Pow256;
    var value := LE(Unsigned(Clip(o.value)), 8);
    assert OutBytes(o) + rest == value + (o.pkh + rest);
    Take(value, o.pkh + rest);
    Take(o.pkh, rest);
    WordSizes();
    LERoundTrip(Unsigned(Clip(o.value)), 8);
    SignedRoundTrip(o.value);
  }

  lemma {:induction false} OutsRoundTrip(outs: seq<TxOut>, rest: seq<Byte>)
    requires forall i :: 0 <= i < |outs| ==> OutFits(outs[i])
    ensures ReadOuts(OutsBytes(outs) + rest, |outs|) == Some((outs, rest))
  {
    hide ReadOut, OutBytes, OutFits;
    if outs == [] {
      assert OutsBytes(outs) + rest == rest;
    } else {
      var more := OutsBytes(outs[1..]) + rest;
      assert OutsBytes(outs) + rest == OutBytes(outs[0]) + more;
      OutRoundTrip(outs[0], more);
      OutsRoundTrip(outs[1..], rest);
      assert [outs[0]] + outs[1..] == outs;
    }
  }

  /** Every transaction within the limits survives encoding and decoding. */
  lemma {:induction false} TxRoundTrip(t: Tx)
    requires TxFits(t)
    ensures DecodeTx(TxBytes(t)) == Some(t)
  {
    hide ReadFull, ReadCounted, ReadIns, ReadOuts, ReadVarBytes, LE, FromLE, InsBytes, OutsBytes, VarBytes, InFits, OutFits, Pow256;
    var tag := VarBytes(t.lockTag);
    var outs := OutsBytes(t.outs) + tag;
    var ins := InsBytes(t.ins, false) + (PutUvarint(|t.outs|) + outs);
    Take(LE(t.version, 4), PutUvarint(|t.ins|) + ins);
    CountRoundTrip(|t.ins|, ins, 10_000);
    InsRoundTrip(t.ins, PutUvarint(|t.outs|) + outs);
    CountRoundTrip(|t.outs|, outs, 10_000);
    OutsRoundTrip(t.outs, tag);
    VarBytesRoundTrip(t.lockTag, [], 256);
    assert tag + [] == tag;
    WordSizes();
    LERoundTrip(t.version, 4);
  }

  lemma {:induction false} TxsRoundTrip(txs: seq<Tx>, rest: seq<Byte>)
    requires forall i :: 0 <= i < |txs| ==> TxFits(txs[i]) && |TxBytes(txs[i])| <= MAX_BLOCK_BYTES
    ensures ReadTxs(TxsBytes(txs) + rest, |txs|) == Some((txs, rest))
  {
    hide ReadVarBytes, TxBytes, DecodeTx, TxFits, VarBytes;
    if txs == [] {
      assert TxsBytes(txs) + rest == rest;
    } else {
      var more := TxsBytes(txs[1..]) + rest;
      assert TxsBytes(txs) + rest == VarBytes(TxBytes(txs[0])) + more;
      VarBytesRoundTrip(TxBytes(txs[0]), more, MAX_BLOCK_BYTES);
      TxRoundTrip(txs[0]);
      TxsRoundTrip(txs[1..], rest);
      assert [txs[0]] + txs[1..] == txs;
    }
  }

  lemma {:induction false} LEDigit(x: nat, k: nat, i: nat)
    requires i < k
    ensures LE(x, k)[i] == x / Pow256(i) % 256
  {
    if i > 0 {
      LEDigit(x / 256, k - 1, i - 1);
      DivDiv(x, 256, Pow256(i - 1));
    }
  }

  /** Where each field of a header stands in its 88 bytes, integers least significant byte first and times as two's complement. */
  lemma {:induction false} HeaderLayout(h: Header)
    ensures var s := HeaderBytes(h);
            && s[4..36] == h.prevBlock && s[36..68] == h.merkleRoot
            && (forall i :: 0 <= i < 4 ==> s[i] == h.version / Pow256(i) % 256 && s[76 + i] == h.bits / Pow256(i) % 256)
            && (forall i :: 0 <= i < 8 ==>
                  && s[68 + i] == (if h.time >= 0 then h.time else h.time + 0x1_0000_0000_0000_0000) / Pow256(i) % 256
                  && s[80 + i] == h.nonce / Pow256(i) % 256)
  {
    hide LE, Pow256;
    var s := HeaderBytes(h);
    forall i | 0 <= i < 4 ensures s[i] == h.version / Pow256(i) % 256 && s[76 + i] == h.bits / Pow256(i) % 256 {
      LEDigit(h.version, 4, i);
      LEDigit(h.bits, 4, i);
    }
    forall i | 0 <= i < 8
      ensures s[68 + i] == Unsigned(h.time) / Pow256(i) % 256 && s[80 + i] == h.nonce / Pow256(i) % 256 {
      LEDigit(Unsigned(h.time), 8, i);
      LEDigit(h.nonce, 8, i);
    }
  }

  lemma {:induction false} Between(a: seq<Byte>, b: seq<Byte>, c: seq<Byte>)
    ensures (a + b + c)[|a|..|a| + |b|] == b
  {
  }

  lemma {:induction false} ThreeFields(p: seq<Byte>, x: seq<Byte>, y: seq<Byte>, z: seq<Byte>)
    ensures var s := p + x + y + z;
            var i, j, k := |p|, |p| + |x|, |p| + |x| + |y|;
            && s[..i] == p && s[i..j] == x && s[j..k] == y && s[k..] == z
  {
    assert p + x + y + z == p + x + (y + z);
    Between(p, x, y + z);
    Between(p + x, y, z);
  }

  lemma {:induction false} HeaderFields(a: seq<Byte>, b: seq<Byte>, c: seq<Byte>, d: seq<Byte>, e: seq<Byte>, f: seq<Byte>)
    requires |a| == 4 && |b| == 32 && |c| == 32 && |d| == 8 && |e| == 4 && |f| == 8
    ensures var s := a + b + c + d + e + f;
            && |s| == 88 && s[0..4] == a && s[4..36] == b && s[36..68] == c && s[68..76] == d && s[76..80] == e && s[80..88] == f
  {
    var front := a + b + c;
    var s := front + d + e + f;
    ThreeFields([], a, b, c);
    assert [] + a + b + c == front;
    ThreeFields(front, d, e, f);
    assert s[0..4] == front[0..4] && s[4..36] == front[4..36] && s[36..68] == front[36..68];
  }

  lemma {:induction false} HeaderRoundTrip(h: Header)
    ensures DecodeHeader(HeaderBytes(h)) == h
  {
    hide LE, FromLE, Pow256;
    HeaderFields(LE(h.version, 4), h.prevBlock, h.merkleRoot, LE(Unsigned(h.time), 8), LE(h.bits, 4), LE(h.nonce, 8));
    WordSizes();
    LERoundTrip(h.version, 4);
    LERoundTrip(Unsigned(h.time), 8);
    LERoundTrip(h.bits, 4);
    LERoundTrip(h.nonce, 8);
    SignedRoundTrip(h.time);
  }

  /** Every block within the limits survives encoding and decoding. */
  lemma {:induction false} BlockRoundTrip(b: Block)
    requires BlockFits(b)
    ensures DecodeBlock(BlockBytes(b)) == Some(b)
  {
    hide ReadTxs, TxsBytes, HeaderBytes, DecodeHeader, TxFits, TxBytes, ReadUvarint, PutUvarint;
    var s := BlockBytes(b);
    var txs := TxsBytes(b.txs);
    assert s[..88] == HeaderBytes(b.header);
    assert s[88..] == PutUvarint(|b.txs|) + txs;
    UvarintRoundTrip(|b.txs|, txs);
    TxsRoundTrip(b.txs, []);
    assert txs + [] == txs;
    HeaderRoundTrip(b.header);
  }
}
