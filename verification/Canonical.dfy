/** When an accepted encoding is the canonical one (core/tx.go, core/block.go). The decoders read with plain `Read`, which pads a
    short field with zeros, and with `ReadUvarint`, which takes non-minimal integers; nothing else makes them more liberal. */
module Canonical {
  import opened Types
  import opened Compact
  import opened Params
  import opened Varint
  import opened Wire

  // ---- integers ----

  /** The encoding continues and does not end in a zero byte. */
  predicate MinimalTail(s: seq<Byte>) {
    s != [] && if s[0] < 128 then s[0] != 0 else MinimalTail(s[1..])
  }

  /** The varint at the front of `s` is written in the fewest bytes. */
  predicate Minimal(s: seq<Byte>) {
    s != [] && (s[0] < 128 || MinimalTail(s[1..]))
  }

  lemma {:induction false} LongVarint(low: int, high: nat)
    requires 0 <= low < 128
    ensures high > 0 ==> PutUvarint(low + 128 * high) == [low + 128] + PutUvarint(high)
    ensures high == 0 ==> PutUvarint(low + 128 * high) == [low]
  {
  }

  /** A continuation byte is in place exactly when the rest of the value is not zero and is itself in place. */
  lemma {:induction false} LeadByte(s: seq<Byte>, high: nat, n: nat, rest: seq<Byte>)
    requires s != [] && s[0] >= 128 && n == s[0] - 128 + 128 * high
    ensures s == PutUvarint(n) + rest <==> high > 0 && s[1..] == PutUvarint(high) + rest
  {
    hide PutUvarint;
    LongVarint(s[0] - 128, high);
    assert s == [s[0]] + s[1..];
    if high > 0 {
      assert PutUvarint(n) + rest == [s[0]] + (PutUvarint(high) + rest);
      if s == PutUvarint(n) + rest {
        assert s[1..] == PutUvarint(high) + rest;
      }
    } else {
      assert (PutUvarint(n) + rest)[0] != s[0];
    }
  }

  lemma {:induction false} TailExact(s: seq<Byte>, i: nat, n: nat, rest: seq<Byte>)
    requires i <= 10 && ReadUvarint(s, i) == Some((n, rest))
    ensures MinimalTail(s) <==> n != 0 && s == PutUvarint(n) + rest
    decreases 10 - i
  {
    if s[0] >= 128 {
      hide PutUvarint;
      var high := ReadUvarint(s[1..], i + 1).value.0;
      TailExact(s[1..], i + 1, high, rest);
      LeadByte(s, high, n, rest);
    } else {
      assert s == [s[0]] + s[1..];
    }
  }

  /** A varint is minimal exactly when it is what writing its value produces. */
  lemma {:induction false} VarintExact(s: seq<Byte>, n: nat, rest: seq<Byte>)
    requires ReadUvarint(s, 0) == Some((n, rest))
    ensures Minimal(s) <==> s == PutUvarint(n) + rest
  {
    if s[0] >= 128 {
      hide PutUvarint;
      var high := ReadUvarint(s[1..], 1).value.0;
      TailExact(s[1..], 1, high, rest);
      LeadByte(s, high, n, rest);
    } else {
      assert s == [s[0]] + s[1..];
    }
  }

  lemma {:induction false} LEInverse(s: seq<Byte>)
    ensures LE(FromLE(s), |s|) == s
  {
    if s != [] {
      LEInverse(s[1..]);
      assert s == [s[0]] + s[1..];
    }
  }

  // ---- fields ----

  /** A length-prefixed field with a minimal length and all its bytes present. */
  predicate StrictVarBytes(s: seq<Byte>) {
    match ReadUvarint(s, 0)
    case None => false
    case Some((n, rest)) => Minimal(s) && |rest| >= n
  }

  lemma {:induction false} VarBytesExact(s: seq<Byte>, maxLen: nat, b: seq<Byte>, rest: seq<Byte>)
    requires ReadVarBytes(s, maxLen) == Some((b, rest)) && maxLen < 0x1_0000_0000
    ensures StrictVarBytes(s) <==> s == VarBytes(b) + rest
  {
    hide PutUvarint, ReadUvarint, Minimal;
    var (n, after) := ReadUvarint(s, 0).value;
    VarintExact(s, n, after);
    if StrictVarBytes(s) {
      assert after == b + rest;
      assert s == VarBytes(b) + rest;
    }
    if s == VarBytes(b) + rest {
      assert s == PutUvarint(|b|) + (b + rest);
      UvarintRoundTrip(|b|, b + rest);
    }
  }

  lemma {:induction false} VarBytesCut(b: seq<Byte>, rest: seq<Byte>, maxLen: nat, got: seq<Byte>, after: seq<Byte>)
    requires |b| <= maxLen < 0x1_0000_0000 && ReadVarBytes(VarBytes(b) + rest, maxLen) == Some((got, after))
    ensures got == b && after == rest
  {
    hide VarBytes, ReadVarBytes;
    VarBytesRoundTrip(b, rest, maxLen);
  }

  lemma {:induction false} VarBytesLength(s: seq<Byte>, maxLen: nat, b: seq<Byte>, rest: seq<Byte>)
    requires ReadVarBytes(s, maxLen) == Some((b, rest))
    ensures |b| <= maxLen
  {
    hide ReadUvarint;
  }

  predicate StrictIn(s: seq<Byte>) {
    && |s| >= 36
    && (match ReadVarBytes(s[36..], 128)
        case None => false
        case Some((_, s3)) => StrictVarBytes(s[36..]) && StrictVarBytes(s3))
  }

  lemma {:induction false} InExact(s: seq<Byte>, i: TxIn, rest: seq<Byte>)
    requires ReadIn(s) == Some((i, rest))
    ensures StrictIn(s) <==> s == InBytes(i, false) + rest
  {
    hide StrictVarBytes, VarBytes, LE, FromLE, ReadVarBytes;
    var (id, s1) := ReadPadded(s, 32).value;
    var (idx, s2) := ReadFull(s1, 4).value;
    var (pubKey, s3) := ReadVarBytes(s2, 128).value;
    LEInverse(idx);
    VarBytesExact(s2, 128, pubKey, s3);
    VarBytesExact(s3, 128, i.sig, rest);
    VarBytesLength(s2, 128, pubKey, s3);
    if |s| >= 36 {
      assert s == id + idx + s2 && s2 == s[36..];
      if StrictIn(s) {
        assert s == id + idx + VarBytes(pubKey) + VarBytes(i.sig) + rest;
      }
      if s == InBytes(i, false) + rest {
        assert s[36..] == VarBytes(pubKey) + (VarBytes(i.sig) + rest);
        VarBytesCut(pubKey, VarBytes(i.sig) + rest, 128, pubKey, s3);
      }
    }
  }

  predicate StrictIns(s: seq<Byte>, n: nat)
    decreases n
  {
    if n == 0 then true
    else
      match ReadIn(s)
      case None => false
      case Some((_, s1)) => StrictIn(s) && StrictIns(s1, n - 1)
  }

  lemma {:induction false} InLimits(s: seq<Byte>, i: TxIn, rest: seq<Byte>)
    requires ReadIn(s) == Some((i, rest))
    ensures InFits(i)
  {
    hide ReadVarBytes, FromLE;
    var (id, s1) := ReadPadded(s, 32).value;
    var (idx, s2) := ReadFull(s1, 4).value;
    FromLEBound(idx);
    WordSizes();
    var (pubKey, s3) := ReadVarBytes(s2, 128).value;
    VarBytesLength(s2, 128, pubKey, s3);
    VarBytesLength(s3, 128, i.sig, rest);
  }

  lemma {:induction false} InsExact(s: seq<Byte>, n: nat, ins: seq<TxIn>, rest: seq<Byte>)
    requires ReadIns(s, n) == Some((ins, rest))
    ensures |ins| == n && (forall i :: 0 <= i < n ==> InFits(ins[i]))
    ensures StrictIns(s, n) <==> s == InsBytes(ins, false) + rest
    decreases n
  {
    hide StrictIn, ReadIn, InBytes, InFits;
    if n > 0 {
      var (first, s1) := ReadIn(s).value;
      InsExact(s1, n - 1, ins[1..], rest);
      InExact(s, first, s1);
      InLimits(s, first, s1);
      var more := InsBytes(ins[1..], false) + rest;
      assert InsBytes(ins, false) + rest == InBytes(first, false) + more;
      if s == InBytes(first, false) + more {
        InRoundTrip(first, more);
      }
    }
  }

  predicate StrictOuts(s: seq<Byte>, n: nat) {
    |s| >= 28 * n
  }

  lemma {:induction false} ValueInverse(b: seq<Byte>)
    requires |b| == 8
    ensures LE(Unsigned(Clip(Signed(ToU64(b)))), 8) == b
  {
    hide LE, FromLE;
    LEInverse(b);
  }

  lemma {:induction false} OutExact(s: seq<Byte>, o: TxOut, rest: seq<Byte>)
    requires ReadOut(s) == Some((o, rest))
    ensures |s| >= 28 <==> s == OutBytes(o) + rest
    ensures OutFits(o)
    ensures |s| >= 28 ==> rest == s[28..]
    ensures |s| < 28 ==> rest == []
  {
    hide LE, Clip, Unsigned, Signed, ToU64;
    var (value, s1) := ReadFull(s, 8).value;
    ValueInverse(value);
    if |s| >= 28 {
      assert s == value + o.pkh + rest;
    }
  }

  lemma {:induction false} OutsExact(s: seq<Byte>, n: nat, outs: seq<TxOut>, rest: seq<Byte>)
    requires ReadOuts(s, n) == Some((outs, rest))
    ensures |outs| == n && (forall i :: 0 <= i < n ==> OutFits(outs[i]))
    ensures StrictOuts(s, n) <==> s == OutsBytes(outs) + rest
    decreases n
  {
    hide ReadOut, OutBytes, OutFits;
    OutsLength(outs);
    if n > 0 {
      var (first, s1) := ReadOut(s).value;
      OutsExact(s1, n - 1, outs[1..], rest);
      OutExact(s, first, s1);
      assert OutsBytes(outs) + rest == OutBytes(first) + (OutsBytes(outs[1..]) + rest);
    }
  }

  // ---- transactions ----

  /** Every integer minimal and every field whole, as far as the decoder reads. */
  predicate StrictTx(s: seq<Byte>) {
    && |s| >= 4
    && (match ReadCounted(s[4..], 10_000)
        case None => false
        case Some((nIn, s2)) =>
          match ReadIns(s2, nIn)
          case None => false
          case Some((_, s3)) => Minimal(s[4..]) && StrictIns(s2, nIn) && StrictEnd(s3))
  }

  predicate StrictEnd(s3: seq<Byte>) {
    match ReadCounted(s3, 10_000)
    case None => false
    case Some((nOut, s4)) =>
      match ReadOuts(s4, nOut)
      case None => false
      case Some((_, s5)) => Minimal(s3) && StrictOuts(s4, nOut) && StrictVarBytes(s5)
  }

  /** What follows the inputs. */
  function EndBytes(outs: seq<TxOut>, tag: seq<Byte>): seq<Byte> {
    PutUvarint(|outs|) + (OutsBytes(outs) + VarBytes(tag))
  }

  /** The reads after the inputs. */
  ghost predicate ReadsEnd(s3: seq<Byte>, outs: seq<TxOut>, tag: seq<Byte>) {
    match ReadCounted(s3, 10_000)
    case None => false
    case Some((nOut, s4)) =>
      match ReadOuts(s4, nOut)
      case None => false
      case Some((got, s5)) => got == outs && ReadVarBytes(s5, 256) == Some((tag, []))
  }

  lemma {:induction false} CountExact(s: seq<Byte>, n: nat, rest: seq<Byte>)
    requires ReadCounted(s, 10_000) == Some((n, rest))
    ensures Minimal(s) <==> s == PutUvarint(n) + rest
    ensures n <= 10_000
  {
    hide ReadUvarint, PutUvarint, Minimal;
    VarintExact(s, n, rest);
  }

  lemma {:induction false} CountCut(s: seq<Byte>, n: nat, rest: seq<Byte>, m: nat, more: seq<Byte>)
    requires ReadCounted(s, 10_000) == Some((n, rest)) && s == PutUvarint(m) + more && m <= 10_000
    ensures n == m && rest == more
  {
    hide ReadCounted, PutUvarint;
    CountRoundTrip(m, more, 10_000);
  }

  lemma {:induction false} EndExact(s3: seq<Byte>, outs: seq<TxOut>, tag: seq<Byte>)
    requires ReadsEnd(s3, outs, tag)
    ensures |outs| <= 10_000 && |tag| <= 256 && (forall i :: 0 <= i < |outs| ==> OutFits(outs[i]))
    ensures StrictEnd(s3) <==> s3 == EndBytes(outs, tag)
  {
    hide ReadCounted, ReadOuts, ReadVarBytes, Minimal, StrictOuts, StrictVarBytes, PutUvarint, OutsBytes, VarBytes, OutFits;
    var (nOut, s4) := ReadCounted(s3, 10_000).value;
    var s5 := ReadOuts(s4, nOut).value.1;
    CountExact(s3, nOut, s4);
    OutsExact(s4, nOut, outs, s5);
    VarBytesExact(s5, 256, tag, []);
    VarBytesLength(s5, 256, tag, []);
    assert VarBytes(tag) + [] == VarBytes(tag);
    if s3 == EndBytes(outs, tag) {
      CountCut(s3, nOut, s4, |outs|, OutsBytes(outs) + VarBytes(tag));
      OutsRoundTrip(outs, VarBytes(tag));
    }
  }

  /** An accepted transaction is within the decoder's limits, and its bytes are the canonical ones exactly when every integer in
      them is minimal and no field was cut short. */
  lemma {:induction false} TxExact(s: seq<Byte>, t: Tx)
    requires DecodeTx(s) == Some(t)
    ensures TxFits(t)
    ensures s == TxBytes(t) <==> StrictTx(s)
  {
    hide ReadCounted, ReadIns, ReadOuts, ReadVarBytes, Minimal, StrictIns, StrictEnd, PutUvarint, InsBytes, OutsBytes, VarBytes, LE, FromLE,
         InFits, OutFits;
    var (version, s1) := ReadFull(s, 4).value;
    var (nIn, s2) := ReadCounted(s1, 10_000).value;
    var s3 := ReadIns(s2, nIn).value.1;
    LEInverse(version);
    CountExact(s1, nIn, s2);
    InsExact(s2, nIn, t.ins, s3);
    EndExact(s3, t.outs, t.lockTag);
    var end := EndBytes(t.outs, t.lockTag);
    assert s == version + s1 && s1 == s[4..];
    assert TxBytes(t) == version + (PutUvarint(|t.ins|) + (InsBytes(t.ins, false) + end));
    if s == TxBytes(t) {
      assert s1 == PutUvarint(|t.ins|) + (InsBytes(t.ins, false) + end);
      CountCut(s1, nIn, s2, |t.ins|, InsBytes(t.ins, false) + end);
      InsRoundTrip(t.ins, end);
    }
  }

  // ---- blocks ----

  predicate StrictTxs(s: seq<Byte>, n: nat)
    decreases n
  {
    if n == 0 then true
    else
      match ReadVarBytes(s, MAX_BLOCK_BYTES)
      case None => false
      case Some((raw, s1)) => StrictVarBytes(s) && StrictTx(raw) && StrictTxs(s1, n - 1)
  }

  predicate StrictBlock(s: seq<Byte>) {
    && |s| >= 88
    && (match ReadUvarint(s[88..], 0)
        case None => false
        case Some((n, rest)) => Minimal(s[88..]) && StrictTxs(rest, n))
  }

  lemma {:induction false} TxsExact(s: seq<Byte>, n: nat, txs: seq<Tx>, rest: seq<Byte>)
    requires ReadTxs(s, n) == Some((txs, rest)) && |s| < 0x1_0000_0000
    ensures |txs| == n && (forall i :: 0 <= i < n ==> TxFits(txs[i]))
    ensures StrictTxs(s, n) <==> s == TxsBytes(txs) + rest
    decreases n
  {
    hide ReadVarBytes, DecodeTx, StrictTx, StrictVarBytes, VarBytes, TxBytes, TxFits;
    if n > 0 {
      var (raw, s1) := ReadVarBytes(s, MAX_BLOCK_BYTES).value;
      var first := txs[0];
      Shorter(s, raw, s1);
      TxsExact(s1, n - 1, txs[1..], rest);
      VarBytesExact(s, MAX_BLOCK_BYTES, raw, s1);
      TxExact(raw, first);
      var more := TxsBytes(txs[1..]) + rest;
      assert TxsBytes(txs) + rest == VarBytes(TxBytes(first)) + more;
      if s == VarBytes(TxBytes(first)) + more {
        FieldCut(s, TxBytes(first), more, raw, s1);
      }
    }
  }

  lemma {:induction false} Shorter(s: seq<Byte>, raw: seq<Byte>, s1: seq<Byte>)
    requires ReadVarBytes(s, MAX_BLOCK_BYTES) == Some((raw, s1))
    ensures |s1| <= |s|
  {
    VarintShorter(s, 0);
  }

  lemma {:induction false} VarintShorter(s: seq<Byte>, i: nat)
    requires i <= 10 && ReadUvarint(s, i).Some?
    ensures |ReadUvarint(s, i).value.1| <= |s|
    decreases 10 - i
  {
    if s[0] >= 128 {
      VarintShorter(s[1..], i + 1);
    }
  }

  lemma {:induction false} FieldCut(s: seq<Byte>, b: seq<Byte>, more: seq<Byte>, raw: seq<Byte>, s1: seq<Byte>)
    requires ReadVarBytes(s, MAX_BLOCK_BYTES) == Some((raw, s1)) && |s| < 0x1_0000_0000 && s == VarBytes(b) + more
    ensures raw == b && s1 == more
  {
    hide PutUvarint, ReadUvarint;
    assert s == PutUvarint(|b|) + (b + more);
    UvarintRoundTrip(|b|, b + more);
  }

  lemma {:induction false} HeaderInverse(s: seq<Byte>)
    requires |s| == 88
    ensures HeaderBytes(DecodeHeader(s)) == s
  {
    hide LE, FromLE, Pow256;
    LEInverse(s[0..4]);
    LEInverse(s[68..76]);
    LEInverse(s[76..80]);
    LEInverse(s[80..88]);
    assert s == s[0..4] + s[4..36] + s[36..68] + s[68..76] + s[76..80] + s[80..88];
  }

  /** The same for blocks. */
  lemma {:induction false} BlockExact(s: seq<Byte>, b: Block)
    requires DecodeBlock(s) == Some(b)
    ensures 0 < |b.txs| <= 100_000 && (forall i :: 0 <= i < |b.txs| ==> TxFits(b.txs[i]))
    ensures s == BlockBytes(b) <==> StrictBlock(s)
  {
    hide ReadTxs, TxsBytes, HeaderBytes, DecodeHeader, TxFits, ReadUvarint, PutUvarint, StrictTxs, Minimal;
    var (n, rest) := ReadUvarint(s[88..], 0).value;
    VarintShorter(s[88..], 0);
    HeaderInverse(s[..88]);
    VarintExact(s[88..], n, rest);
    TxsExact(rest, n, b.txs, []);
    assert s == s[..88] + s[88..];
    assert TxsBytes(b.txs) + [] == TxsBytes(b.txs);
    if s == BlockBytes(b) {
      assert s[88..] == PutUvarint(|b.txs|) + TxsBytes(b.txs);
      UvarintRoundTrip(|b.txs|, TxsBytes(b.txs));
    }
  }
}
