/** The buffer-writing and reader-consuming loops behind the wire format (core/tx.go, core/block.go). */
module WireLoops {
  import opened Types
  import opened Params
  import opened Varint
  import opened Wire

  // ---- writing ----

  lemma {:induction false} InsBytesSnoc(ins: seq<TxIn>, n: nat, forSigning: bool)
    requires n < |ins|
    ensures InsBytes(ins[..n + 1], forSigning) == InsBytes(ins[..n], forSigning) + InBytes(ins[n], forSigning)
  {
    hide InBytes;
    if n == 0 {
      assert ins[..1][1..] == [];
    } else {
      InsBytesSnoc(ins[1..], n - 1, forSigning);
      assert ins[..n + 1][1..] == ins[1..][..n] && ins[..n][1..] == ins[1..][..n - 1];
    }
  }

  lemma {:induction false} OutsBytesSnoc(outs: seq<TxOut>, n: nat)
    requires n < |outs|
    ensures OutsBytes(outs[..n + 1]) == OutsBytes(outs[..n]) + OutBytes(outs[n])
  {
    hide OutBytes;
    if n == 0 {
      assert outs[..1][1..] == [];
    } else {
      OutsBytesSnoc(outs[1..], n - 1);
      assert outs[..n + 1][1..] == outs[1..][..n] && outs[..n][1..] == outs[1..][..n - 1];
    }
  }

  lemma {:induction false} TxsBytesSnoc(txs: seq<Tx>, n: nat)
    requires n < |txs|
    ensures TxsBytes(txs[..n + 1]) == TxsBytes(txs[..n]) + VarBytes(TxBytes(txs[n]))
  {
    hide TxBytes, VarBytes;
    if n == 0 {
      assert txs[..1][1..] == [];
    } else {
      TxsBytesSnoc(txs[1..], n - 1);
      assert txs[..n + 1][1..] == txs[1..][..n] && txs[..n][1..] == txs[1..][..n - 1];
    }
  }

  method WriteIns(ins: seq<TxIn>, forSigning: bool) returns (buf: seq<Byte>)
    ensures buf == InsBytes(ins, forSigning)
  {
    hide InsBytes, VarBytes, LE;
    buf := [];
    var i := 0;
    assert InsBytes(ins[..0], forSigning) == [] by { NothingWritten(ins, [], [], forSigning); }
    while i < |ins|
      invariant 0 <= i <= |ins| && buf == InsBytes(ins[..i], forSigning)
    {
      InsBytesSnoc(ins, i, forSigning);
      var one := ins[i].prev.txId + LE(ins[i].prev.idx, 4) + VarBytes(ins[i].pubKey);
      if forSigning {
        one := one + VarBytes([]);
      } else {
        one := one + VarBytes(ins[i].sig);
      }
      buf := buf + one;
      i := i + 1;
    }
    assert ins[..i] == ins;
  }

  lemma {:induction false} NothingWritten(ins: seq<TxIn>, outs: seq<TxOut>, txs: seq<Tx>, forSigning: bool)
    ensures InsBytes(ins[..0], forSigning) == [] && OutsBytes(outs[..0]) == [] && TxsBytes(txs[..0]) == []
  {
  }

  method WriteOuts(outs: seq<TxOut>) returns (buf: seq<Byte>)
    ensures buf == OutsBytes(outs)
  {
    hide OutsBytes, LE, Unsigned, Clip;
    buf := [];
    var i := 0;
    assert OutsBytes(outs[..0]) == [] by { NothingWritten([], outs, [], false); }
    while i < |outs|
      invariant 0 <= i <= |outs| && buf == OutsBytes(outs[..i])
    {
      OutsBytesSnoc(outs, i);
      buf := buf + (LE(Unsigned(Clip(outs[i].value)), 8) + outs[i].pkh);
      i := i + 1;
    }
    assert outs[..i] == outs;
  }

  /** `Tx.serialize`. */
  method WriteTx(t: Tx, forSigning: bool) returns (buf: seq<Byte>)
    ensures buf == Serialize(t, forSigning)
  {
    hide LE, PutUvarint, InsBytes, OutsBytes, VarBytes;
    var ins := WriteIns(t.ins, forSigning);
    var outs := WriteOuts(t.outs);
    buf := LE(t.version, 4) + PutUvarint(|t.ins|) + ins + PutUvarint(|t.outs|) + outs + VarBytes(t.lockTag);
    assert buf == LE(t.version, 4) + (PutUvarint(|t.ins|) + (ins + (PutUvarint(|t.outs|) + (outs + VarBytes(t.lockTag)))));
  }

  /** `Block.Bytes`. */
  method WriteBlock(b: Block) returns (buf: seq<Byte>)
    ensures buf == BlockBytes(b)
  {
    hide TxsBytes, HeaderBytes, PutUvarint, VarBytes, Serialize;
    ghost var head := HeaderBytes(b.header) + PutUvarint(|b.txs|);
    buf := HeaderBytes(b.header) + PutUvarint(|b.txs|);
    var i := 0;
    assert TxsBytes(b.txs[..0]) == [] by { NothingWritten([], [], b.txs, false); }
    while i < |b.txs|
      invariant 0 <= i <= |b.txs| && buf == head + TxsBytes(b.txs[..i])
    {
      TxsBytesSnoc(b.txs, i);
      var raw := WriteTx(b.txs[i], false);
      buf := buf + VarBytes(raw);
      i := i + 1;
    }
    assert b.txs[..i] == b.txs;
    assert buf == HeaderBytes(b.header) + (PutUvarint(|b.txs|) + TxsBytes(b.txs));
  }

  // ---- reading ----

  method ParseIns(given: seq<Byte>, n: nat) returns (res: Option<(seq<TxIn>, seq<Byte>)>)
    ensures res == ReadIns(given, n)
  {
    hide ReadIn;
    var rest, ins: seq<TxIn>, i := given, [], 0;
    ghost var whole := ReadIns(given, n);
    assert whole.Some? ==> ins + whole.value.0 == whole.value.0;
    while i < n
      invariant 0 <= i <= n
      invariant ReadIns(given, n) == match ReadIns(rest, n - i) { case None => None case Some((more, tail)) => Some((ins + more, tail)) }
    {
      var one := ReadIn(rest);
      if one.None? {
        return None;
      }
      ghost var later := ReadIns(one.value.1, n - i - 1);
      assert later.Some? ==> (ins + [one.value.0]) + later.value.0 == ins + ([one.value.0] + later.value.0);
      ins := ins + [one.value.0];
      rest := one.value.1;
      i := i + 1;
    }
    assert ins + [] == ins;
    return Some((ins, rest));
  }

  method ParseOuts(given: seq<Byte>, n: nat) returns (res: Option<(seq<TxOut>, seq<Byte>)>)
    ensures res == ReadOuts(given, n)
  {
    hide ReadOut;
    var rest, outs: seq<TxOut>, i := given, [], 0;
    ghost var whole := ReadOuts(given, n);
    assert whole.Some? ==> outs + whole.value.0 == whole.value.0;
    while i < n
      invariant 0 <= i <= n
      invariant ReadOuts(given, n) == match ReadOuts(rest, n - i) { case None => None case Some((more, tail)) => Some((outs + more, tail)) }
    {
      var one := ReadOut(rest);
      if one.None? {
        return None;
      }
      ghost var later := ReadOuts(one.value.1, n - i - 1);
      assert later.Some? ==> (outs + [one.value.0]) + later.value.0 == outs + ([one.value.0] + later.value.0);
      outs := outs + [one.value.0];
      rest := one.value.1;
      i := i + 1;
    }
    assert outs + [] == outs;
    return Some((outs, rest));
  }

  /** `DecodeTx`. */
  method ParseTx(given: seq<Byte>) returns (res: Option<Tx>)
    ensures res == DecodeTx(given)
  {
    hide ReadIns, ReadOuts, ReadUvarint, ReadPadded;
    var version := ReadFull(given, 4);
    if version.None? {
      return None;
    }
    var nIn := ReadUvarint(version.value.1, 0);
    if nIn.None? || nIn.value.0 > 10_000 {
      return None;
    }
    var ins := ParseIns(nIn.value.1, nIn.value.0);
    if ins.None? {
      return None;
    }
    var nOut := ReadUvarint(ins.value.1, 0);
    if nOut.None? || nOut.value.0 > 10_000 {
      return None;
    }
    var outs := ParseOuts(nOut.value.1, nOut.value.0);
    if outs.None? {
      return None;
    }
    var tag := ReadVarBytes(outs.value.1, 256);
    if tag.None? || tag.value.1 != [] {
      return None;
    }
    return Some(Tx(ToU32(version.value.0), ins.value.0, outs.value.0, tag.value.0));
  }

  method ParseTxs(given: seq<Byte>, n: nat) returns (res: Option<(seq<Tx>, seq<Byte>)>)
    ensures res == ReadTxs(given, n)
  {
    hide DecodeTx, ReadVarBytes;
    var rest, txs: seq<Tx>, i := given, [], 0;
    ghost var whole := ReadTxs(given, n);
    assert whole.Some? ==> txs + whole.value.0 == whole.value.0;
    while i < n
      invariant 0 <= i <= n
      invariant ReadTxs(given, n) == match ReadTxs(rest, n - i) { case None => None case Some((more, tail)) => Some((txs + more, tail)) }
    {
      var raw := ReadVarBytes(rest, MAX_BLOCK_BYTES);
      if raw.None? {
        return None;
      }
      var one := ParseTx(raw.value.0);
      if one.None? {
        return None;
      }
      ghost var later := ReadTxs(raw.value.1, n - i - 1);
      assert later.Some? ==> (txs + [one.value]) + later.value.0 == txs + ([one.value] + later.value.0);
      txs := txs + [one.value];
      rest := raw.value.1;
      i := i + 1;
    }
    assert txs + [] == txs;
    return Some((txs, rest));
  }

  /** `DecodeBlock`. */
  method ParseBlock(given: seq<Byte>) returns (res: Option<Block>)
    ensures res == DecodeBlock(given)
  {
    hide ReadTxs, ReadUvarint, DecodeHeader;
    if |given| < 88 || |given| > MAX_BLOCK_BYTES + 16 {
      return None;
    }
    var header := DecodeHeader(given[..88]);
    var count := ReadUvarint(given[88..], 0);
    if count.None? || count.value.0 == 0 || count.value.0 > 100_000 {
      return None;
    }
    var txs := ParseTxs(count.value.1, count.value.0);
    if txs.None? || txs.value.1 != [] {
      return None;
    }
    return Some(Block(header, txs.value.0));
  }

  // ---- the decoder is more liberal than the encoder ----

  lemma {:induction false} ShortTag(tag: seq<Byte>)
    requires 2 <= |tag| <= 256 && tag[|tag| - 1] == 0
    ensures ReadVarBytes(PutUvarint(|tag|) + tag[..|tag| - 1], 256) == Some((tag, []))
  {
    hide PutUvarint;
    UvarintRoundTrip(|tag|, tag[..|tag| - 1]);
    assert Zeros(1) == [0];
    assert tag[..|tag| - 1] + [0] == tag;
  }

  /** A short read of the final field is padded, not refused: any transaction whose tag ends in a zero byte is also decoded
      from its encoding with that byte missing, so decoding does not identify the bytes. */
  lemma {:induction false} TruncatedEncodingAccepted(t: Tx)
    requires TxFits(t) && |t.lockTag| >= 2 && t.lockTag[|t.lockTag| - 1] == 0
    ensures |TxBytes(t)| > 0 && DecodeTx(TxBytes(t)[..|TxBytes(t)| - 1]) == Some(t)
  {
    hide ReadIns, ReadOuts, ReadVarBytes, ReadUvarint, LE, InsBytes, OutsBytes, PutUvarint;
    var n := |t.lockTag|;
    var tail := PutUvarint(n) + t.lockTag[..n - 1];
    var s5 := OutsBytes(t.outs) + tail;
    var s4 := PutUvarint(|t.outs|) + s5;
    var s3 := InsBytes(t.ins, false) + s4;
    var s2 := PutUvarint(|t.ins|) + s3;
    var whole := TxBytes(t);
    assert whole[..|whole| - 1] == LE(t.version, 4) + s2;
    Take(LE(t.version, 4), s2);
    CountRoundTrip(|t.ins|, s3, 10_000);
    InsRoundTrip(t.ins, s4);
    CountRoundTrip(|t.outs|, s5, 10_000);
    OutsRoundTrip(t.outs, tail);
    ShortTag(t.lockTag);
    VersionRoundTrip(t.version);
  }

  lemma {:induction false} VersionRoundTrip(v: U32)
    ensures ToU32(LE(v, 4)) == v
  {
    hide LE, FromLE;
    WordSizes();
    LERoundTrip(v, 4);
  }
}
