/** The rolling window of accepted shares (pool/pplns.go). */
module ShareWindow {
  import opened Types
  import opened Params
  import opened Difficulty
  import opened Payouts

  const MAINNET := "btc09-mainnet"
  const REGTEST := "btc09-regtest"
  const SCHEMA := 2
  const MAX_STATE_BYTES := 256 * 1024
  const U64_MAX: U64 := 0xffff_ffff_ffff_ffff
  const ZERO_TIME := 0

  datatype Share = Share(
    sequence: U64, address: string, jobId: string, nonce: U64, shareHash: string,
    target: nat, tipHash: string, tipHeight: int, acceptedAt: int)

  datatype Window = Window(schema: int, network: string, windowShares: int, maxAddresses: int, next: U64, shares: seq<Share>)

  predicate HexDigit(ch: char) {
    '0' <= ch <= '9' || 'a' <= ch <= 'f'
  }

  predicate ValidLowerHex(s: string, length: nat) {
    |s| == length && forall i :: 0 <= i < |s| ==> HexDigit(s[i])
  }

  predicate ValidShare(c: Codec, s: Share, stored: bool) {
    && (stored <==> s.sequence != 0)
    && ValidAddress(c, s.address)
    && ValidLowerHex(s.jobId, 32) && ValidLowerHex(s.shareHash, 64) && ValidLowerHex(s.tipHash, 64)
    && s.target > 0
    && s.tipHeight >= 0 && s.acceptedAt != ZERO_TIME
  }

  function NetworkMaxTarget(network: string): nat {
    if network == MAINNET then MaxTarget(MainNet([])) else MaxTarget(RegTest([]))
  }

  function Key(s: Share): (string, U64) {
    (s.jobId, s.nonce)
  }

  function Addresses(shares: seq<Share>): set<string> {
    set i | 0 <= i < |shares| :: shares[i].address
  }

  ghost predicate Contiguous(shares: seq<Share>) {
    forall i :: 0 < i < |shares| ==> shares[i].sequence == shares[i - 1].sequence + 1
  }

  ghost predicate DistinctKeys(shares: seq<Share>) {
    forall i, j :: 0 <= i < j < |shares| ==> Key(shares[i]) != Key(shares[j])
  }

  ghost predicate SharesValid(c: Codec, shares: seq<Share>, maxTarget: nat) {
    forall i :: 0 <= i < |shares| ==> ValidShare(c, shares[i], true) && shares[i].target <= maxTarget
  }

  function NextAfter(shares: seq<Share>): int {
    if shares == [] then 1 else shares[|shares| - 1].sequence + 1
  }

  predicate Configured(w: Window, network: string, windowShares: int, maxAddresses: int) {
    w.schema == SCHEMA && w.network == network && w.windowShares == windowShares && w.maxAddresses == maxAddresses
  }

  /** What a stored window must satisfy. */
  ghost predicate ValidState(c: Codec, w: Window, network: string, windowShares: int, maxAddresses: int) {
    && Configured(w, network, windowShares, maxAddresses)
    && |w.shares| <= windowShares
    && SharesValid(c, w.shares, NetworkMaxTarget(network))
    && Contiguous(w.shares)
    && DistinctKeys(w.shares)
    && w.next == NextAfter(w.shares)
    && |Addresses(w.shares)| <= maxAddresses
  }

  ghost predicate PrefixOk(c: Codec, shares: seq<Share>, n: nat, max: nat)
    requires n <= |shares|
  {
    SharesValid(c, shares[..n], max) && Contiguous(shares[..n]) && DistinctKeys(shares[..n])
  }

  /** What the share at position `n` must satisfy given the ones before it. */
  predicate NextOk(c: Codec, shares: seq<Share>, n: nat, max: nat)
    requires n < |shares|
  {
    && ValidShare(c, shares[n], true) && shares[n].target <= max
    && (n > 0 ==> shares[n].sequence == shares[n - 1].sequence + 1)
    && !HasKey(shares[..n], Key(shares[n]))
  }

  lemma {:induction false} PrefixStep(c: Codec, shares: seq<Share>, n: nat, max: nat)
    requires n < |shares| && PrefixOk(c, shares, n, max)
    ensures PrefixOk(c, shares, n + 1, max) <==> NextOk(c, shares, n, max)
  {
    hide ValidShare, Key;
    var p, q := shares[..n], shares[..n + 1];
    assert q == p + [shares[n]];
    if NextOk(c, shares, n, max) {
      forall i, j | 0 <= i < j < |q| ensures Key(q[i]) != Key(q[j]) {
        assert q[i] == p[i];
      }
    } else if HasKey(p, Key(shares[n])) {
      var i :| 0 <= i < |p| && Key(p[i]) == Key(shares[n]);
      assert Key(q[i]) == Key(q[n]);
    } else {
      assert q[n] == shares[n];
      assert n > 0 ==> q[n - 1] == shares[n - 1];
    }
  }

  lemma {:induction false} PrefixOfWhole(c: Codec, shares: seq<Share>, n: nat, max: nat)
    requires n <= |shares| && SharesValid(c, shares, max) && Contiguous(shares) && DistinctKeys(shares)
    ensures PrefixOk(c, shares, n, max)
  {
    hide ValidShare, Key;
  }

  /** `validatePPLNSState`: one pass that collects keys and addresses. */
  method ValidateState(c: Codec, w: Window, network: string, windowShares: int, maxAddresses: int) returns (ok: bool)
    ensures ok <==> ValidState(c, w, network, windowShares, maxAddresses)
  {
    hide SharesValid, Contiguous, DistinctKeys, NetworkMaxTarget, Addresses;
    if !Configured(w, network, windowShares, maxAddresses) || w.next < 1 || |w.shares| > windowShares {
      return false;
    }
    var addresses, previous: U64;
    ok, addresses, previous := ScanShares(c, w.shares, NetworkMaxTarget(network));
    if !ok {
      return false;
    }
    if |w.shares| == 0 {
      if w.next != 1 {
        return false;
      }
    } else if previous == U64_MAX || w.next != previous + 1 {
      return false;
    }
    return |addresses| <= maxAddresses;
  }

  method ScanShares(c: Codec, shares: seq<Share>, max: nat) returns (ok: bool, addresses: set<string>, previous: U64)
    ensures ok <==> SharesValid(c, shares, max) && Contiguous(shares) && DistinctKeys(shares)
    ensures ok ==> addresses == Addresses(shares) && previous == if shares == [] then 0 else shares[|shares| - 1].sequence
  {
    hide SharesValid, Contiguous, DistinctKeys, ValidShare;
    var seen: set<(string, U64)>, index := {}, 0;
    addresses, previous := {}, 0;
    assert shares[..0] == [] && PrefixOk(c, shares, 0, max) by { NoShares(c, max); }
    while index < |shares|
      invariant 0 <= index <= |shares| && PrefixOk(c, shares, index, max)
      invariant previous == if index == 0 then 0 else shares[index - 1].sequence
      invariant seen == KeySet(shares[..index]) && addresses == Addresses(shares[..index])
    {
      var share := shares[index];
      PrefixStep(c, shares, index, max);
      PrefixSnoc(shares, index);
      if SharesValid(c, shares, max) && Contiguous(shares) && DistinctKeys(shares) {
        PrefixOfWhole(c, shares, index + 1, max);
      }
      if !ValidShare(c, share, true) || share.target > max {
        return false, {}, 0;
      }
      StoredSequence(c, share);
      if index > 0 && share.sequence != (previous + 1) % 0x1_0000_0000_0000_0000 {
        return false, {}, 0;
      }
      KeysMembers(shares[..index], Key(share));
      if Key(share) in seen {
        return false, {}, 0;
      }
      previous := share.sequence;
      seen := seen + {Key(share)};
      addresses := addresses + {share.address};
      index := index + 1;
    }
    assert shares[..index] == shares;
    ok := true;
  }

  function KeySet(shares: seq<Share>): set<(string, U64)> {
    set i | 0 <= i < |shares| :: Key(shares[i])
  }

  lemma {:induction false} KeysMembers(shares: seq<Share>, key: (string, U64))
    ensures key in KeySet(shares) <==> HasKey(shares, key)
  {
  }

  lemma {:induction false} NoShares(c: Codec, max: nat)
    ensures SharesValid(c, [], max) && Contiguous([]) && DistinctKeys([])
  {
  }

  lemma {:induction false} StoredSequence(c: Codec, s: Share)
    requires ValidShare(c, s, true)
    ensures s.sequence != 0
  {
  }

  lemma {:induction false} PrefixSnoc(shares: seq<Share>, n: nat)
    requires n < |shares|
    ensures shares[..n + 1] == shares[..n] + [shares[n]]
    ensures KeySet(shares[..n + 1]) == KeySet(shares[..n]) + {Key(shares[n])}
    ensures Addresses(shares[..n + 1]) == Addresses(shares[..n]) + {shares[n].address}
  {
    hide Key;
    var p, q := shares[..n], shares[..n + 1];
    assert q == p + [shares[n]];
    assert forall i :: 0 <= i < n ==> q[i] == p[i];
    assert q[n] == shares[n];
  }

  // ---- accepting a share ----

  /** What the disk will do: the size of an encoded window and whether the durable write succeeds. */
  datatype Disk = Disk(encodedSize: Window -> nat, writes: bool)

  datatype Refusal = BadShare | Closed | Duplicate | Exhausted | BadState | TooLarge | WriteFailed

  function LastN(shares: seq<Share>, n: int): (r: seq<Share>)
    requires n >= 0
    ensures |r| == if |shares| <= n then |shares| else n
  {
    if |shares| <= n then shares else shares[|shares| - n..]
  }

  function Stamped(w: Window, s: Share): Share {
    s.(sequence := w.next)
  }

  function Appended(w: Window, s: Share): Window
    requires w.windowShares >= 0 && w.next < U64_MAX
  {
    w.(next := w.next + 1, shares := LastN(w.shares + [Stamped(w, s)], w.windowShares))
  }

  predicate HasKey(shares: seq<Share>, key: (string, U64)) {
    exists i :: 0 <= i < |shares| && Key(shares[i]) == key
  }

  ghost function Accept(c: Codec, disk: Disk, w: Window, closed: bool, s: Share): Result<Window, Refusal>
    requires w.windowShares >= 0
  {
    if !ValidShare(c, s, false) then Err(BadShare)
    else if closed then Err(Closed)
    else if HasKey(w.shares, Key(s)) then Err(Duplicate)
    else if w.next == U64_MAX then Err(Exhausted)
    else
      var candidate := Appended(w, s);
      if !ValidState(c, candidate, w.network, w.windowShares, w.maxAddresses) then Err(BadState)
      else if disk.encodedSize(candidate) > MAX_STATE_BYTES then Err(TooLarge)
      else if !disk.writes then Err(WriteFailed)
      else Ok(candidate)
  }

  /** The window object. */
  class PplnsWindow {
    var state: Window
    var closed: bool

    constructor (network: string, windowShares: nat, maxAddresses: nat)
      ensures state == Window(SCHEMA, network, windowShares, maxAddresses, 1, []) && !closed
    {
      state := Window(SCHEMA, network, windowShares, maxAddresses, 1, []);
      closed := false;
    }

    /** A refused share leaves the window as it was. */
    method AcceptShare(c: Codec, disk: Disk, given: Share) returns (res: Result<Share, Refusal>)
      requires state.windowShares >= 0
      modifies this`state
      ensures match Accept(c, disk, old(state), closed, given)
              case Ok(w) => state == w && res == Ok(Stamped(old(state), given))
              case Err(e) => state == old(state) && res == Err(e)
    {
      hide ValidState, ValidShare;
      if !ValidShare(c, given, false) {
        return Err(BadShare);
      }
      if closed {
        return Err(Closed);
      }
      var i := 0;
      while i < |state.shares|
        invariant 0 <= i <= |state.shares|
        invariant forall j :: 0 <= j < i ==> Key(state.shares[j]) != Key(given)
      {
        if Key(state.shares[i]) == Key(given) {
          return Err(Duplicate);
        }
        i := i + 1;
      }
      var candidate := state;
      if candidate.next == U64_MAX {
        return Err(Exhausted);
      }
      var share := given.(sequence := candidate.next);
      candidate := candidate.(next := candidate.next + 1, shares := candidate.shares + [share]);
      if |candidate.shares| > candidate.windowShares {
        candidate := candidate.(shares := candidate.shares[|candidate.shares| - candidate.windowShares..]);
      }
      var ok := ValidateState(c, candidate, candidate.network, candidate.windowShares, candidate.maxAddresses);
      if !ok {
        return Err(BadState);
      }
      if disk.encodedSize(candidate) > MAX_STATE_BYTES {
        return Err(TooLarge);
      }
      if !disk.writes {
        return Err(WriteFailed);
      }
      state := candidate;
      return Ok(share);
    }
  }

  // ---- exactly which shares are accepted ----

  lemma {:induction false} AppendedKeys(w: Window, s: Share)
    requires w.windowShares >= 0 && w.next < U64_MAX
    requires DistinctKeys(w.shares) && !HasKey(w.shares, Key(s))
    ensures DistinctKeys(Appended(w, s).shares)
  {
    var all := w.shares + [Stamped(w, s)];
    assert DistinctKeys(all) by {
      forall i, j | 0 <= i < j < |all| ensures Key(all[i]) != Key(all[j]) {
        assert Key(all[i]) == Key(w.shares[i]);
      }
    }
  }

  lemma {:induction false} AppendedSequences(w: Window, s: Share)
    requires w.windowShares >= 0 && w.next < U64_MAX && |w.shares| <= w.windowShares
    requires Contiguous(w.shares) && w.next == NextAfter(w.shares)
    ensures Contiguous(Appended(w, s).shares)
    ensures w.windowShares > 0 ==> Appended(w, s).next == NextAfter(Appended(w, s).shares)
  {
  }

  lemma {:induction false} AppendedValid(c: Codec, w: Window, s: Share, max: nat)
    requires w.windowShares >= 0 && w.next < U64_MAX
    requires SharesValid(c, w.shares, max) && ValidShare(c, Stamped(w, s), true)
    ensures s.target <= max ==> SharesValid(c, Appended(w, s).shares, max)
    ensures s.target > max && w.windowShares > 0 ==> !SharesValid(c, Appended(w, s).shares, max)
  {
    hide ValidShare;
    var shares := Appended(w, s).shares;
    assert w.windowShares > 0 ==> shares[|shares| - 1] == Stamped(w, s);
  }

  lemma {:induction false} StampedValid(c: Codec, w: Window, s: Share)
    requires ValidShare(c, s, false) && w.next >= 1
    ensures ValidShare(c, Stamped(w, s), true)
  {
  }

  /** On a valid open window a well-formed share is accepted exactly when it is new, within the network maximum,
      keeps the number of payout addresses within its limit, and can be written. */
  lemma {:induction false} AcceptedIff(c: Codec, disk: Disk, w: Window, s: Share)
    requires w.windowShares > 0 && ValidState(c, w, w.network, w.windowShares, w.maxAddresses)
    ensures Accept(c, disk, w, false, s).Ok? <==>
      (&& ValidShare(c, s, false)
       && !HasKey(w.shares, Key(s))
       && w.next < U64_MAX
       && s.target <= NetworkMaxTarget(w.network)
       && |Addresses(LastN(w.shares + [s], w.windowShares))| <= w.maxAddresses
       && disk.encodedSize(Appended(w, s)) <= MAX_STATE_BYTES
       && disk.writes)
  {
    hide ValidShare, DistinctKeys, Contiguous, SharesValid, NetworkMaxTarget, Addresses, NextAfter, HasKey;
    if ValidShare(c, s, false) && !HasKey(w.shares, Key(s)) && w.next < U64_MAX {
      NextPositive(c, w);
      StampedValid(c, w, s);
      AppendedKeys(w, s);
      AppendedSequences(w, s);
      AppendedValid(c, w, s, NetworkMaxTarget(w.network));
      SameAddresses(w, s);
    }
  }

  lemma {:induction false} NextPositive(c: Codec, w: Window)
    requires ValidState(c, w, w.network, w.windowShares, w.maxAddresses)
    ensures w.next >= 1
  {
  }

  lemma {:induction false} SameAddresses(w: Window, s: Share)
    requires w.windowShares >= 0 && w.next < U64_MAX
    ensures Addresses(Appended(w, s).shares) == Addresses(LastN(w.shares + [s], w.windowShares))
  {
    var a, b := Appended(w, s).shares, LastN(w.shares + [s], w.windowShares);
    assert forall i :: 0 <= i < |a| ==> a[i].address == b[i].address;
    forall x ensures x in Addresses(a) <==> x in Addresses(b) {
    }
  }

  // ---- whole runs ----

  /** One attempt to add a share. */
  datatype Attempt = Attempt(share: Share, disk: Disk, closed: bool)

  /** A window together with every share it has ever accepted. */
  datatype Ledgered = Ledgered(window: Window, history: seq<Share>)

  ghost function Feed(c: Codec, l: Ledgered, a: Attempt): Ledgered
    requires l.window.windowShares >= 0
  {
    match Accept(c, a.disk, l.window, a.closed, a.share)
    case Ok(w) => Ledgered(w, l.history + [Stamped(l.window, a.share)])
    case Err(_) => l
  }

  ghost function FeedAll(c: Codec, l: Ledgered, attempts: seq<Attempt>): (r: Ledgered)
    requires l.window.windowShares >= 0
    ensures r.window.windowShares == l.window.windowShares
  {
    if attempts == [] then l
    else Feed(c, FeedAll(c, l, attempts[..|attempts| - 1]), attempts[|attempts| - 1])
  }

  /** A window read back from disk: what it holds is all that is known of the past. */
  function Restored(w: Window): Ledgered {
    Ledgered(w, w.shares)
  }

  ghost predicate Usable(c: Codec, w: Window) {
    w.windowShares > 0 && ValidState(c, w, w.network, w.windowShares, w.maxAddresses)
  }

  /** The window is the last N of the accepted shares, which are numbered without gaps. */
  ghost predicate Rolling(c: Codec, l: Ledgered) {
    && Usable(c, l.window)
    && Contiguous(l.history)
    && l.window.next == NextAfter(l.history)
    && l.window.shares == LastN(l.history, l.window.windowShares)
  }

  lemma {:induction false} FeedRolling(c: Codec, l: Ledgered, a: Attempt)
    requires Rolling(c, l)
    ensures Rolling(c, Feed(c, l, a))
  {
    hide ValidState, ValidShare, HasKey;
    if Accept(c, a.disk, l.window, a.closed, a.share).Ok? {
      RollOn(l.history, Stamped(l.window, a.share), l.window.windowShares);
    }
  }

  lemma {:induction false} RollOn(history: seq<Share>, s: Share, n: int)
    requires n >= 0
    ensures LastN(LastN(history, n) + [s], n) == LastN(history + [s], n)
  {
  }

  /** In every run from any valid window, a new or a restored one, the window is exactly the last N shares. */
  lemma {:induction false} WindowIsLastN(c: Codec, w: Window, attempts: seq<Attempt>)
    requires Usable(c, w)
    ensures Rolling(c, FeedAll(c, Restored(w), attempts))
  {
    hide Feed, ValidShare, NetworkMaxTarget;
    if attempts != [] {
      hide Rolling;
      WindowIsLastN(c, w, attempts[..|attempts| - 1]);
      FeedRolling(c, FeedAll(c, Restored(w), attempts[..|attempts| - 1]), attempts[|attempts| - 1]);
    }
  }

  /** What a usable window holds: shares in arrival order without a gap in their numbers, no submission twice, each under a valid
      address with well-formed hashes, a positive target no easier than the network's easiest, a tip height and a time. */
  lemma {:induction false} UsableMeans(c: Codec, w: Window, i: nat)
    requires Usable(c, w) && i < |w.shares|
    ensures w.schema == 2 && |w.shares| <= w.windowShares && |Addresses(w.shares)| <= w.maxAddresses
    ensures w.shares[i].sequence == w.shares[0].sequence + i && w.next == w.shares[0].sequence + |w.shares|
    ensures var s := w.shares[i];
            && s.sequence > 0 && ValidAddress(c, s.address)
            && |s.jobId| == 32 && |s.shareHash| == 64 && |s.tipHash| == 64
            && (forall k :: 0 <= k < 32 ==> HexDigit(s.jobId[k]))
            && (forall k :: 0 <= k < 64 ==> HexDigit(s.shareHash[k]) && HexDigit(s.tipHash[k]))
            && 0 < s.target <= NetworkMaxTarget(w.network) && s.tipHeight >= 0 && s.acceptedAt != 0
    ensures forall j :: 0 <= j < |w.shares| && j != i ==> (w.shares[j].jobId, w.shares[j].nonce) != (w.shares[i].jobId, w.shares[i].nonce)
  {
    hide Addresses, NetworkMaxTarget, HexDigit, ValidAddress;
    ContiguousFrom(w.shares, i);
    ContiguousFrom(w.shares, |w.shares| - 1);
    assert ValidShare(c, w.shares[i], true);
    forall j | 0 <= j < |w.shares| && j != i ensures Key(w.shares[j]) != Key(w.shares[i]) {
    }
  }

  function NewWindow(network: string, windowShares: nat, maxAddresses: nat): Window {
    Window(SCHEMA, network, windowShares, maxAddresses, 1, [])
  }

  lemma {:induction false} NewWindowUsable(c: Codec, network: string, windowShares: nat, maxAddresses: nat)
    requires windowShares > 0
    ensures Usable(c, NewWindow(network, windowShares, maxAddresses))
  {
    hide NetworkMaxTarget, ValidShare;
    assert Addresses([]) == {};
  }

  lemma {:induction false} ContiguousFrom(shares: seq<Share>, i: nat)
    requires Contiguous(shares) && i < |shares|
    ensures shares[i].sequence == shares[0].sequence + i
  {
    if i > 0 {
      ContiguousFrom(shares, i - 1);
    }
  }

  // ---- the byte limit on the stored window ----

  /** The hexadecimal fields of a share alone. */
  function HexBytes(shares: seq<Share>): nat {
    if shares == [] then 0
    else
      var s := shares[|shares| - 1];
      HexBytes(shares[..|shares| - 1]) + |s.jobId| + |s.shareHash| + |s.tipHash| + 64
  }

  lemma {:induction false} HexBytesExact(c: Codec, shares: seq<Share>, max: nat)
    requires SharesValid(c, shares, max)
    ensures HexBytes(shares) == 224 * |shares|
  {
    hide HexDigit, ValidAddress;
    if shares != [] {
      assert ValidShare(c, shares[|shares| - 1], true);
      HexBytesExact(c, shares[..|shares| - 1], max);
    }
  }

  /** Whatever the window limit, an encoding that spells out the hexadecimal fields caps the window at 1170 shares:
      a larger configured window can never fill, and once 1170 shares are held no further share is accepted. */
  lemma {:induction false} ByteLimitCapsWindow(c: Codec, disk: Disk, w: Window, s: Share)
    requires w.windowShares > 0 && ValidState(c, w, w.network, w.windowShares, w.maxAddresses)
    requires forall v: Window :: disk.encodedSize(v) >= HexBytes(v.shares)
    requires Accept(c, disk, w, false, s).Ok?
    ensures |Accept(c, disk, w, false, s).value.shares| <= 1170
    ensures w.windowShares > 1170 ==> |w.shares| < 1170
  {
    hide ValidShare, DistinctKeys, Contiguous, NetworkMaxTarget, Addresses, NextAfter, HasKey, SharesValid, HexBytes;
    var v := Appended(w, s);
    HexBytesExact(c, v.shares, NetworkMaxTarget(w.network));
    assert disk.encodedSize(v) >= HexBytes(v.shares);
  }
}
