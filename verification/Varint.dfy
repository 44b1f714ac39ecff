/** Unsigned LEB128 integers, as `binary.PutUvarint` and `binary.ReadUvarint` handle them. */
module Varint {
  import opened Types

  function PutUvarint(n: nat): (r: seq<Byte>)
    ensures |r| >= 1
  {
    if n < 128 then [n] else [n % 128 + 128] + PutUvarint(n / 128)
  }

  /** Read from byte position `i` of the encoding: ten bytes at most, and the tenth carries one bit. */
  function ReadUvarint(s: seq<Byte>, i: nat): Option<(nat, seq<Byte>)>
    requires i <= 10
    decreases 10 - i
  {
    if s == [] || i == 10 then None
    else if s[0] < 128 then
      (if i == 9 && s[0] > 1 then None else Some((s[0], s[1..])))
    else
      match ReadUvarint(s[1..], i + 1)
      case None => None
      case Some((high, rest)) => Some((s[0] - 128 + 128 * high, rest))
  }

  /** Room left for the value whose encoding starts at byte `i`. */
  ghost function Room(i: nat): nat
    requires i <= 9
    decreases 9 - i
  {
    if i == 9 then 2 else 128 * Room(i + 1)
  }

  lemma {:induction false} FullRoom()
    ensures Room(0) == 0x1_0000_0000_0000_0000
  {
    assert Room(7) == 128 * (128 * 2);
    assert Room(5) == 128 * (128 * Room(7));
    assert Room(3) == 128 * (128 * Room(5));
    assert Room(1) == 128 * (128 * Room(3));
  }

  lemma {:induction false} UvarintRoundTripAt(n: nat, i: nat, rest: seq<Byte>)
    requires i <= 9 && n < Room(i)
    ensures ReadUvarint(PutUvarint(n) + rest, i) == Some((n, rest))
    decreases 10 - i
  {
    var s := PutUvarint(n) + rest;
    if i == 9 {
      assert s[1..] == rest;
    } else if n < 128 {
      assert s[1..] == rest;
    } else {
      UvarintRoundTripAt(n / 128, i + 1, rest);
      assert s[1..] == PutUvarint(n / 128) + rest;
    }
  }

  /** Any 64-bit value written is read back, whatever follows it. */
  lemma {:induction false} UvarintRoundTrip(n: nat, rest: seq<Byte>)
    requires n < 0x1_0000_0000_0000_0000
    ensures ReadUvarint(PutUvarint(n) + rest, 0) == Some((n, rest))
  {
    FullRoom();
    UvarintRoundTripAt(n, 0, rest);
  }

  lemma {:induction false} UvarintLenMono(a: nat, b: nat)
    requires a <= b
    ensures |PutUvarint(a)| <= |PutUvarint(b)|
  {
    if a >= 128 {
      UvarintLenMono(a / 128, b / 128);
    }
  }

  lemma {:induction false} UvarintShort(n: nat)
    ensures n < 128 ==> |PutUvarint(n)| == 1
    ensures 128 <= n < 16384 ==> |PutUvarint(n)| == 2
    ensures 16384 <= n < 2097152 ==> |PutUvarint(n)| == 3
  {
    if n >= 128 {
      assert |PutUvarint(n)| == 1 + |PutUvarint(n / 128)|;
      if n >= 16384 {
        assert |PutUvarint(n / 128)| == 1 + |PutUvarint(n / 128 / 128)|;
      }
    }
  }
}
