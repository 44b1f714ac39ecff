/** Signing a transaction and its encoded size (core/tx.go). */
module Signing {
  import opened Types
  import opened Varint
  import opened Wire

  type PubKey = b: seq<Byte> | |b| == 32 witness Zeros(32)
  type Signature = b: seq<Byte> | |b| == 64 witness Zeros(64)

  /** An Ed25519 private key: its 32-byte public half and the 64-byte signatures it makes. */
  datatype Key = Key(pub: PubKey, sign: Hash -> Signature)

  /** A key verifies what it signed. */
  ghost predicate GoodKey(env: Env, k: Key) {
    forall d: Hash :: env.verify(k.pub, d, k.sign(d))
  }

  /** The digest is a hash of the serialization with blank signatures. */
  ghost predicate DigestHashes(env: Env, sha: seq<Byte> -> Hash) {
    forall t: Tx :: env.sigDigest(t) == sha(Serialize(t, true))
  }

  function WithPubs(ins: seq<TxIn>, keys: seq<Key>): (r: seq<TxIn>)
    requires |keys| == |ins|
    ensures |r| == |ins|
    ensures forall i :: 0 <= i < |ins| ==> r[i] == ins[i].(pubKey := keys[i].pub)
  {
    if ins == [] then [] else [ins[0].(pubKey := keys[0].pub)] + WithPubs(ins[1..], keys[1..])
  }

  function WithSigs(ins: seq<TxIn>, keys: seq<Key>, d: Hash): (r: seq<TxIn>)
    requires |keys| == |ins|
    ensures |r| == |ins|
    ensures forall i :: 0 <= i < |ins| ==> r[i] == ins[i].(sig := keys[i].sign(d))
  {
    if ins == [] then [] else [ins[0].(sig := keys[0].sign(d))] + WithSigs(ins[1..], keys[1..], d)
  }

  function SignedTx(env: Env, t: Tx, keys: seq<Key>): (r: Tx)
    requires |keys| == |t.ins|
    ensures |r.ins| == |t.ins| && r == t.(ins := r.ins)
    ensures forall i :: 0 <= i < |t.ins| ==> r.ins[i].prev == t.ins[i].prev && r.ins[i].pubKey == keys[i].pub
  {
    var withPubs := t.(ins := WithPubs(t.ins, keys));
    withPubs.(ins := WithSigs(withPubs.ins, keys, env.sigDigest(withPubs)))
  }

  /** `Tx.Sign`: public keys first, because the digest covers them, then signatures. */
  method Sign(env: Env, given: Tx, keys: seq<Key>) returns (res: Option<Tx>)
    ensures res == if |keys| == |given.ins| then Some(SignedTx(env, given, keys)) else None
  {
    if |keys| != |given.ins| {
      return None;
    }
    var t, i := given, 0;
    while i < |t.ins|
      invariant 0 <= i <= |given.ins| && |t.ins| == |given.ins| && t == given.(ins := t.ins)
      invariant forall j :: 0 <= j < |given.ins| ==> t.ins[j] == if j < i then given.ins[j].(pubKey := keys[j].pub) else given.ins[j]
    {
      t := t.(ins := t.ins[i := t.ins[i].(pubKey := keys[i].pub)]);
      i := i + 1;
    }
    assert t.ins == WithPubs(given.ins, keys);
    var digest := env.sigDigest(t);
    ghost var prepared := t.ins;
    i := 0;
    while i < |t.ins|
      invariant 0 <= i <= |given.ins| && |t.ins| == |given.ins| && t == given.(ins := t.ins)
      invariant forall j :: 0 <= j < |given.ins| ==> t.ins[j] == if j < i then prepared[j].(sig := keys[j].sign(digest)) else prepared[j]
    {
      t := t.(ins := t.ins[i := t.ins[i].(sig := keys[i].sign(digest))]);
      i := i + 1;
    }
    assert t.ins == WithSigs(prepared, keys, digest);
    res := Some(t);
  }

  /** The signing bytes do not depend on the signatures. */
  lemma {:induction false} SigningBytesIgnoreSigs(ins: seq<TxIn>, keys: seq<Key>, d: Hash)
    requires |keys| == |ins|
    ensures InsBytes(WithSigs(ins, keys, d), true) == InsBytes(ins, true)
  {
    hide LE, VarBytes;
    if ins != [] {
      SigningBytesIgnoreSigs(ins[1..], keys[1..], d);
      var r := WithSigs(ins, keys, d);
      assert r[1..] == WithSigs(ins[1..], keys[1..], d);
      assert InBytes(r[0], true) == InBytes(ins[0], true);
    }
  }

  /** The same inputs without their signatures. */
  function Bare(ins: seq<TxIn>): (r: seq<TxIn>)
    ensures |r| == |ins| && forall i :: 0 <= i < |ins| ==> r[i] == ins[i].(sig := [])
  {
    if ins == [] then [] else [ins[0].(sig := [])] + Bare(ins[1..])
  }

  lemma {:induction false} BareBytes(ins: seq<TxIn>)
    ensures InsBytes(ins, true) == InsBytes(Bare(ins), false)
  {
    hide LE, VarBytes;
    if ins != [] {
      BareBytes(ins[1..]);
      assert Bare(ins)[1..] == Bare(ins[1..]);
      assert InBytes(ins[0], true) == InBytes(Bare(ins)[0], false);
    }
  }

  lemma {:induction false} BareFits(t: Tx)
    requires TxFits(t)
    ensures TxFits(t.(ins := Bare(t.ins)))
  {
    hide OutFits;
    var b := Bare(t.ins);
    forall i | 0 <= i < |b| ensures InFits(b[i]) {
      assert InFits(t.ins[i]);
    }
  }

  /** What is signed commits to everything but the signatures: transactions within the encoding's limits have the same signing
      bytes exactly when they differ in signatures alone. */
  lemma {:induction false} SigningBytesBind(a: Tx, b: Tx)
    requires TxFits(a) && TxFits(b)
    ensures Serialize(a, true) == Serialize(b, true) <==> a.(ins := Bare(a.ins)) == b.(ins := Bare(b.ins))
  {
    hide LE, VarBytes, InsBytes, OutsBytes, TxFits;
    var x, y := a.(ins := Bare(a.ins)), b.(ins := Bare(b.ins));
    BareBytes(a.ins);
    BareBytes(b.ins);
    assert Serialize(a, true) == TxBytes(x) && Serialize(b, true) == TxBytes(y);
    BareFits(a);
    BareFits(b);
    TxRoundTrip(x);
    TxRoundTrip(y);
  }

  /** Every input of a signed transaction verifies. */
  lemma {:induction false} SignedVerifies(env: Env, sha: seq<Byte> -> Hash, t: Tx, keys: seq<Key>, i: nat)
    requires |keys| == |t.ins| && DigestHashes(env, sha) && i < |t.ins| && GoodKey(env, keys[i])
    ensures var s := SignedTx(env, t, keys); env.verify(s.ins[i].pubKey, env.sigDigest(s), s.ins[i].sig)
  {
    hide Serialize, WithPubs, WithSigs, InsBytes;
    var p := t.(ins := WithPubs(t.ins, keys));
    var s := SignedTx(env, t, keys);
    SigningBytesIgnoreSigs(p.ins, keys, env.sigDigest(p));
    SameSigningBytes(p, s);
    assert env.sigDigest(s) == sha(Serialize(s, true)) && env.sigDigest(p) == sha(Serialize(p, true));
  }

  lemma {:induction false} SameSigningBytes(a: Tx, b: Tx)
    requires a == b.(ins := a.ins) && |a.ins| == |b.ins| && InsBytes(a.ins, true) == InsBytes(b.ins, true)
    ensures Serialize(a, true) == Serialize(b, true)
  {
    hide LE, PutUvarint, InsBytes, OutsBytes, VarBytes;
  }

  // ---- size ----

  lemma {:induction false} ShortVarBytes(b: seq<Byte>)
    requires |b| < 128
    ensures |VarBytes(b)| == |b| + 1
  {
    UvarintShort(|b|);
  }

  lemma {:induction false} InsLength(ins: seq<TxIn>)
    requires forall i :: 0 <= i < |ins| ==> |ins[i].pubKey| == 32 && |ins[i].sig| == 64
    ensures |InsBytes(ins, false)| == 134 * |ins|
  {
    hide LE, VarBytes;
    if ins != [] {
      InsLength(ins[1..]);
      ShortVarBytes(ins[0].pubKey);
      ShortVarBytes(ins[0].sig);
    }
  }

  /** Encoded size of a signed transaction without a lock tag. */
  function SizeFor(inputs: nat, outputs: nat): nat {
    4 + |PutUvarint(inputs)| + 134 * inputs + |PutUvarint(outputs)| + 28 * outputs + 1
  }

  lemma {:induction false} SignedSize(env: Env, t: Tx, keys: seq<Key>)
    requires |keys| == |t.ins| && t.lockTag == []
    ensures |TxBytes(SignedTx(env, t, keys))| == SizeFor(|t.ins|, |t.outs|)
  {
    hide LE, PutUvarint, InsBytes, OutsBytes, VarBytes;
    var s := SignedTx(env, t, keys);
    InsLength(s.ins);
    OutsLength(s.outs);
    ShortVarBytes([]);
    assert s.lockTag == [];
  }

  lemma {:induction false} SizeGrows(a: nat, b: nat, outputs: nat)
    requires a <= b
    ensures SizeFor(a, outputs) <= SizeFor(b, outputs)
  {
    hide PutUvarint;
    UvarintLenMono(a, b);
  }
}
