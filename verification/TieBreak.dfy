/** Cross-dialled duplicates: both ends keep the connection with the smallest tie key (p2p/p2p.go). */
module TieBreak {
  import opened Types
  import opened Sorting
  import opened Order
  import opened Slots

  // ---- tie keys ----

  predicate HexDigit(ch: char) {
    '0' <= ch <= '9' || 'a' <= ch <= 'f' || 'A' <= ch <= 'F'
  }

  function Lower(s: string): (r: string)
    ensures |r| == |s|
  {
    if s == "" then "" else [if 'A' <= s[0] <= 'Z' then s[0] + 32 as char else s[0]] + Lower(s[1..])
  }

  /** `normalizeHandshakeID`. */
  function Normalized(s: string): (r: Option<string>)
    ensures r.Some? ==> |r.value| == 32
  {
    if |s| == 32 && forall i :: 0 <= i < |s| ==> HexDigit(s[i]) then Some(Lower(s)) else None
  }

  function Joined(a: string, b: string): string {
    if LexLe(a, b) then a + "|" + b else b + "|" + a
  }

  /** `connectionTieKey`, as the end with the first identity computes it. */
  function TieKey(localId: string, localNonce: string, remoteId: string, remoteNonce: string): string {
    var a, x, b, y := Normalized(localId), Normalized(localNonce), Normalized(remoteId), Normalized(remoteNonce);
    if a.None? || x.None? || b.None? || y.None? then ""
    else Joined(a.value + ":" + x.value, b.value + ":" + y.value)
  }

  /** Both ends of a connection compute the same key. */
  lemma {:induction false} TieKeySymmetric(a: string, x: string, b: string, y: string)
    ensures TieKey(a, x, b, y) == TieKey(b, y, a, x)
  {
    hide Normalized;
    if Normalized(a).Some? && Normalized(x).Some? && Normalized(b).Some? && Normalized(y).Some? {
      JoinedSymmetric(Normalized(a).value + ":" + Normalized(x).value, Normalized(b).value + ":" + Normalized(y).value);
    }
  }

  /** A key is missing exactly when one of the four identifiers is not 32 hexadecimal digits, and letter case never matters. */
  lemma {:induction false} TieKeyMissingIff(a: string, x: string, b: string, y: string)
    ensures TieKey(a, x, b, y) == "" <==> !(Identifier(a) && Identifier(x) && Identifier(b) && Identifier(y))
    ensures TieKey(Lower(a), Lower(x), Lower(b), Lower(y)) == TieKey(a, x, b, y)
  {
    hide LexLe, Lower, HexDigit;
    LowerNormalized(a);
    LowerNormalized(x);
    LowerNormalized(b);
    LowerNormalized(y);
  }

  predicate Identifier(s: string) {
    |s| == 32 && forall i :: 0 <= i < |s| ==> HexDigit(s[i])
  }

  lemma {:induction false} LowerAt(s: string, i: nat)
    requires i < |s|
    ensures Lower(s)[i] == if 'A' <= s[i] <= 'Z' then s[i] + 32 as char else s[i]
  {
    if i > 0 {
      LowerAt(s[1..], i - 1);
    }
  }

  lemma {:induction false} LowerNormalized(s: string)
    ensures Normalized(Lower(s)) == Normalized(s)
  {
    forall i | 0 <= i < |s| ensures (HexDigit(Lower(s)[i]) <==> HexDigit(s[i])) && Lower(Lower(s))[i] == Lower(s)[i] {
      LowerAt(s, i);
      LowerAt(Lower(s), i);
    }
    assert Lower(Lower(s)) == Lower(s);
  }

  lemma {:induction false} JoinedSymmetric(s: string, t: string)
    ensures Joined(s, t) == Joined(t, s)
  {
    LexTotal(s, t);
    if LexLe(s, t) && LexLe(t, s) {
      LexAntisymmetric(s, t);
    }
  }

  /** Different prefixes of one length decide the order. */
  lemma {:induction false} LexByPrefix(a: string, b: string, x: string, y: string)
    requires |a| == |b| && a != b
    ensures LexLe(a + x, b + y) <==> LexLe(a, b)
  {
    if a[0] == b[0] {
      assert a == [a[0]] + a[1..] && b == [b[0]] + b[1..];
      LexByPrefix(a[1..], b[1..], x, y);
      assert (a + x)[1..] == a[1..] + x && (b + y)[1..] == b[1..] + y;
    }
  }

  lemma {:induction false} SplitEqual(a: string, b: string, x: string, y: string)
    requires |a| == |b| && a + x == b + y
    ensures a == b && x == y
  {
    assert a == (a + x)[..|a|] && b == (b + y)[..|b|];
    assert x == (a + x)[|a|..] && y == (b + y)[|b|..];
  }

  lemma {:induction false} JoinedInjective(a: string, b: string, x: string, y: string, x': string, y': string)
    requires |a| == |b| == |x| == |y| == |x'| == |y'| == 32 && a != b
    requires Joined(a + ":" + x, b + ":" + y) == Joined(a + ":" + x', b + ":" + y')
    ensures x == x' && y == y'
  {
    hide LexLe;
    assert a + ":" + x == a + (":" + x) && b + ":" + y == b + (":" + y);
    assert a + ":" + x' == a + (":" + x') && b + ":" + y' == b + (":" + y');
    LexByPrefix(a, b, ":" + x, ":" + y);
    LexByPrefix(a, b, ":" + x', ":" + y');
    if LexLe(a, b) {
      SamePair(a + ":" + x, b + ":" + y, a + ":" + x', b + ":" + y');
    } else {
      SamePair(b + ":" + y, a + ":" + x, b + ":" + y', a + ":" + x');
    }
    SplitEqual(a + ":", a + ":", x, x');
    SplitEqual(b + ":", b + ":", y, y');
  }

  lemma {:induction false} SamePair(s: string, t: string, s': string, t': string)
    requires |s| == |s'| && s + "|" + t == s' + "|" + t'
    ensures s == s' && t == t'
  {
    SplitEqual(s + "|", s' + "|", t, t');
    SplitEqual(s, s', "|", "|");
  }

  /** Two connections between two different nodes have different keys unless both nonces agree. */
  lemma {:induction false} TieKeysDiffer(a: string, b: string, x: string, y: string, x': string, y': string)
    requires Normalized(a).Some? && Normalized(b).Some? && Normalized(a) != Normalized(b)
    requires Normalized(x).Some? && Normalized(y).Some? && Normalized(x').Some? && Normalized(y').Some?
    requires Normalized(x) != Normalized(x') || Normalized(y) != Normalized(y')
    ensures TieKey(a, x, b, y) != TieKey(a, x', b, y')
  {
    hide Normalized, Joined;
    if TieKey(a, x, b, y) == TieKey(a, x', b, y') {
      JoinedInjective(Normalized(a).value, Normalized(b).value, Normalized(x).value, Normalized(y).value,
                      Normalized(x').value, Normalized(y').value);
    }
  }

  // ---- the winner stays ----

  /** `x` competes with `w` for the same peer and loses to it. */
  ghost predicate Outranks(w: Peer, x: Peer) {
    && w.remoteIp != "" && w.remoteIp == x.remoteIp
    && w.tieKey != "" && x.tieKey != "" && LexLe(w.tieKey, x.tieKey) && w.tieKey != x.tieKey
    && Abs(w.connectedAt - x.connectedAt) <= CROSS_DIAL_WINDOW
  }

  function Stored(r: Reservation, p: Peer): Peer {
    p.(outbound := r.target != "")
  }

  /** Under this key only the winner and peers it outranks ever register, and the winner is not torn down. */
  ghost predicate Contest(key: string, w: Peer, e: Event) {
    match e
    case PeerReady(r, k, _, p) => k == key ==> Stored(r, p) == w || Outranks(w, Stored(r, p))
    case PeerGone(k, owner) => k == key ==> owner != w
    case _ => true
  }

  ghost predicate Held(n: Net, key: string, w: Peer) {
    key in n.peers ==> n.peers[key] == w || Outranks(w, n.peers[key])
  }

  ghost predicate Wins(n: Net, key: string, w: Peer) {
    key in n.peers && n.peers[key] == w
  }

  lemma {:induction false} OutranksReplaces(w: Peer, x: Peer)
    requires Outranks(w, x)
    ensures CanReplace(x, w) && !CanReplace(w, x)
  {
    if LexLe(x.tieKey, w.tieKey) {
      LexAntisymmetric(x.tieKey, w.tieKey);
    }
  }

  lemma {:induction false} NoSelfReplace(w: Peer)
    ensures !CanReplace(w, w)
  {
    LexTotal(w.tieKey, w.tieKey);
  }

  /** What one registration does to the holder of the key. */
  lemma {:induction false} RegisterHolder(n: Net, r: Reservation, key: string, dialable: string, p: Peer)
    requires SlotsOk(n)
    ensures var m := Register(n, r, key, dialable, p);
            && (forall k :: k != key ==> (k in m.peers <==> k in n.peers) && (k in n.peers ==> m.peers[k] == n.peers[k]))
            && (!Holds(n, r) ==> m == n)
            && (Holds(n, r) && key !in n.peers ==> key in m.peers && m.peers[key] == Stored(r, p))
            && (Holds(n, r) && key in n.peers ==>
                  key in m.peers && m.peers[key] == if CanReplace(n.peers[key], Stored(r, p)) then Stored(r, p) else n.peers[key])
  {
    hide SlotsOk, CanReplace, ReleaseSlot, RememberTarget;
    if Holds(n, r) {
      RegisterHasRoom(n, r);
      ReleaseLeaves(n, r);
      var m, q := ReleaseSlot(n, r), Stored(r, p);
      RememberPeers(m, r.target, dialable, key);
      RememberPeers(m.(peers := m.peers[key := q]), r.target, dialable, key);
    }
  }

  lemma {:induction false} RememberPeers(n: Net, target: string, dialable: string, key: string)
    ensures Remember(n, target, dialable, key).peers == n.peers
  {
  }

  lemma {:induction false} HolderRegister(n: Net, key: string, w: Peer, r: Reservation, dialable: string, p: Peer)
    requires SlotsOk(n) && (Stored(r, p) == w || Outranks(w, Stored(r, p))) && Held(n, key, w)
    ensures var m := Register(n, r, key, dialable, p);
            && Held(m, key, w) && (Wins(n, key, w) ==> Wins(m, key, w))
            && (Stored(r, p) == w && Holds(n, r) ==> Wins(m, key, w))
  {
    hide SlotsOk, CanReplace, Register, Outranks;
    RegisterHolder(n, r, key, dialable, p);
    NoSelfReplace(w);
    if Outranks(w, Stored(r, p)) {
      OutranksReplaces(w, Stored(r, p));
    }
    if key in n.peers && Outranks(w, n.peers[key]) {
      OutranksReplaces(w, n.peers[key]);
    }
  }

  lemma {:induction false} OtherPeers(n: Net, e: Event)
    requires SlotsOk(n) && !e.PeerReady? && !e.PeerGone?
    ensures Step(n, e).peers == n.peers
  {
    hide SlotsOk, LegalRound, ReserveSlot;
    match e
    case DialRound(ts) =>
      if LegalRound(n, ts) {
        DialAllKeeps(n, ts);
      }
    case InboundArrives(ip) => ReservePeers(n, "", ip);
    case _ =>
  }

  lemma {:induction false} ReservePeers(n: Net, target: string, ip: string)
    ensures ReserveSlot(n, target, ip).peers == n.peers
  {
  }

  lemma {:induction false} HolderStep(n: Net, key: string, w: Peer, e: Event)
    requires SlotsOk(n) && Contest(key, w, e) && Held(n, key, w)
    ensures Held(Step(n, e), key, w) && (Wins(n, key, w) ==> Wins(Step(n, e), key, w))
    ensures e.PeerReady? && e.key == key && Stored(e.r, e.p) == w && Holds(n, e.r) ==> Wins(Step(n, e), key, w)
  {
    hide SlotsOk, Register, Outranks, ReserveInbound, LegalRound, DialAll, ReleaseSlot, Learn, Suppress, Holds;
    match e
    case PeerReady(r, k, dialable, p) =>
      if k == key {
        HolderRegister(n, key, w, r, dialable, p);
      } else {
        RegisterHolder(n, r, k, dialable, p);
      }
    case PeerGone(k, owner) =>
    case _ => OtherPeers(n, e);
  }

  ghost predicate AllContest(key: string, w: Peer, events: seq<Event>) {
    forall i :: 0 <= i < |events| ==> Contest(key, w, events[i])
  }

  lemma {:induction false} HolderRun(n: Net, key: string, w: Peer, events: seq<Event>)
    requires SlotsOk(n) && AllContest(key, w, events) && Held(n, key, w)
    ensures SlotsOk(Run(n, events)) && Held(Run(n, events), key, w)
    ensures Wins(n, key, w) ==> Wins(Run(n, events), key, w)
  {
    hide SlotsOk, Step, Contest, Held, Wins;
    if events != [] {
      HolderRun(n, key, w, events[..|events| - 1]);
      RunKeeps(n, events[..|events| - 1]);
      var before := Run(n, events[..|events| - 1]);
      StepKeeps(before, events[|events| - 1]);
      HolderStep(before, key, w, events[|events| - 1]);
    }
  }

  lemma {:induction false} RunSplit(n: Net, events: seq<Event>, i: nat)
    requires i <= |events|
    ensures Run(n, events) == Run(Run(n, events[..i]), events[i..])
    decreases |events|
  {
    hide Step;
    if i == |events| {
      assert events[..i] == events && events[i..] == [];
    } else {
      RunSplit(n, events[..|events| - 1], i);
      assert events[..|events| - 1][..i] == events[..i];
      assert events[i..][..|events| - i - 1] == events[..|events| - 1][i..];
      assert events[i..][|events[i..]| - 1] == events[|events| - 1];
    }
  }

  /** If the winner ever registers, it holds the key at the end, in whatever order the rivals register and are torn down. */
  lemma {:induction false} WinnerStays(n: Net, key: string, w: Peer, events: seq<Event>, i: nat)
    requires SlotsOk(n) && key !in n.peers && AllContest(key, w, events) && i < |events|
    requires events[i].PeerReady? && events[i].key == key && Stored(events[i].r, events[i].p) == w
    requires Holds(Run(n, events[..i]), events[i].r)
    ensures Wins(Run(n, events), key, w)
  {
    hide SlotsOk, Step, Contest, Wins, Run;
    var at := Run(n, events[..i]);
    HolderRun(n, key, w, events[..i]);
    assert Contest(key, w, events[i]);
    HolderStep(at, key, w, events[i]);
    StepKeeps(at, events[i]);
    RunSplit(n, events, i + 1);
    RunOne(n, events, i);
    HolderRun(Step(at, events[i]), key, w, events[i + 1..]);
  }

  lemma {:induction false} RunOne(n: Net, events: seq<Event>, i: nat)
    requires i < |events|
    ensures Run(n, events[..i + 1]) == Step(Run(n, events[..i]), events[i])
  {
    hide Step;
    assert events[..i + 1][..i] == events[..i];
  }

  /** Of two crossed connections within the window exactly one outranks the other, at both ends alike. */
  lemma {:induction false} OneOutranks(p: Peer, q: Peer)
    requires p.remoteIp != "" && p.remoteIp == q.remoteIp && p.tieKey != "" && q.tieKey != "" && p.tieKey != q.tieKey
    requires Abs(p.connectedAt - q.connectedAt) <= CROSS_DIAL_WINDOW
    ensures Outranks(p, q) <==> !Outranks(q, p)
    ensures Outranks(p, q) <==> LexLe(p.tieKey, q.tieKey)
  {
    LexTotal(p.tieKey, q.tieKey);
    if LexLe(p.tieKey, q.tieKey) && LexLe(q.tieKey, p.tieKey) {
      LexAntisymmetric(p.tieKey, q.tieKey);
    }
  }

  // ---- both registration orders ----

  lemma {:induction false} StillHeld(n: Net, r: Reservation, key: string, dialable: string, p: Peer, other: Reservation)
    requires Holds(n, other) && other.token != r.token
    ensures Holds(Register(n, r, key, dialable, p), other)
  {
    hide CanReplace, RememberTarget;
    var m := ReleaseSlot(n, r);
    RememberPending(m, r.target, dialable, key);
    RememberPending(m.(peers := m.peers[key := Stored(r, p)]), r.target, dialable, key);
  }

  lemma {:induction false} RememberPending(n: Net, target: string, dialable: string, key: string)
    ensures Remember(n, target, dialable, key).pending == n.pending
  {
  }

  /** Two crossed connections: whichever registers first, the one that outranks the other holds the peer afterwards. */
  lemma {:induction false} EitherOrder(n: Net, key: string, r: Reservation, p: Peer, d: string, r': Reservation, p': Peer, d': string)
    requires SlotsOk(n) && key !in n.peers && Holds(n, r) && Holds(n, r') && r.token != r'.token
    requires Outranks(Stored(r, p), Stored(r', p'))
    ensures Wins(Register(Register(n, r, key, d, p), r', key, d', p'), key, Stored(r, p))
    ensures Wins(Register(Register(n, r', key, d', p'), r, key, d, p), key, Stored(r, p))
  {
    hide SlotsOk, CanReplace, Register, Outranks, Holds;
    var w, x := Stored(r, p), Stored(r', p');
    OutranksReplaces(w, x);
    RegisterHolder(n, r, key, d, p);
    RegisterHolder(n, r', key, d', p');
    RegisterKeeps(n, r, key, d, p);
    RegisterKeeps(n, r', key, d', p');
    StillHeld(n, r, key, d, p, r');
    StillHeld(n, r', key, d', p', r);
    RegisterHolder(Register(n, r, key, d, p), r', key, d', p');
    RegisterHolder(Register(n, r', key, d', p'), r, key, d, p);
  }

  // ---- two nodes ----

  /** One end's view of a connection: the slot it reserved and the peer record it registers. */
  datatype End = End(r: Reservation, p: Peer)
  {
    function Record(): Peer {
      Stored(r, p)
    }
  }

  /** One node's side of a cross-dial: two connections to the same remote node, and everything that happens to the node. */
  datatype Side = Side(start: Net, key: string, events: seq<Event>, first: End, second: End)
  {
    /** The end whose own tie key is the smaller. */
    function Smaller(): End {
      if LexLe(first.p.tieKey, second.p.tieKey) then first else second
    }
  }

  /** Under the remote node's key only these two connections register, and the one with the smaller key is not torn down. */
  predicate Crossing(s: Side, e: Event) {
    match e
    case PeerReady(r, k, _, p) => k == s.key ==> End(r, p) == s.first || End(r, p) == s.second
    case PeerGone(k, owner) => k == s.key ==> owner != s.Smaller().Record()
    case _ => true
  }

  /** The end registers at some point with its slot still reserved. */
  ghost predicate Registers(s: Side, end: End) {
    exists i :: RegistersAt(s, end, i)
  }

  ghost predicate RegistersAt(s: Side, end: End, i: int) {
    && 0 <= i < |s.events| && s.events[i].PeerReady? && s.events[i].key == s.key
    && s.events[i].r == end.r && s.events[i].p == end.p
    && Holds(Run(s.start, s.events[..i]), end.r)
  }

  /** A node that dials and is dialled by the same remote address within the window, and registers both connections in
      either order among any other events. */
  ghost predicate CrossDials(s: Side) {
    && SlotsOk(s.start) && s.key !in s.start.peers
    && s.first.p.remoteIp != "" && s.first.p.remoteIp == s.second.p.remoteIp
    && Abs(s.first.p.connectedAt - s.second.p.connectedAt) <= CROSS_DIAL_WINDOW
    && (forall i :: 0 <= i < |s.events| ==> Crossing(s, s.events[i]))
    && Registers(s, s.first) && Registers(s, s.second)
  }

  lemma {:induction false} KeyPresent(a: string, x: string, b: string, y: string)
    requires Normalized(a).Some? && Normalized(x).Some? && Normalized(b).Some? && Normalized(y).Some?
    ensures TieKey(a, x, b, y) != ""
  {
    hide Normalized, LexLe;
  }

  /** With two different keys the smaller one holds the remote node at the end. */
  lemma {:induction false} SmallerHolds(s: Side)
    requires CrossDials(s) && s.first.p.tieKey != "" && s.second.p.tieKey != "" && s.first.p.tieKey != s.second.p.tieKey
    ensures Wins(Run(s.start, s.events), s.key, s.Smaller().Record())
  {
    hide SlotsOk, Run, Wins, LexLe, Outranks;
    var w := s.Smaller().Record();
    OneOutranks(s.first.Record(), s.second.Record());
    forall i | 0 <= i < |s.events| ensures Contest(s.key, w, s.events[i]) {
      assert Crossing(s, s.events[i]);
    }
    var i :| RegistersAt(s, s.Smaller(), i);
    WinnerStays(s.start, s.key, w, s.events, i);
  }

  /** Nodes `a` and `b` dial each other, giving two connections with nonces (x, y) and (x', y'). Each node computes both tie
      keys from its own side and registers the two connections in its own order. Both end up holding the same connection, the
      one with the smaller key. */
  lemma {:induction false} CrossDialAgrees(a: string, b: string, x: string, y: string, x': string, y': string, left: Side, right: Side)
    requires Normalized(a).Some? && Normalized(b).Some? && Normalized(a) != Normalized(b)
    requires Normalized(x).Some? && Normalized(y).Some? && Normalized(x').Some? && Normalized(y').Some?
    requires Normalized(x) != Normalized(x') || Normalized(y) != Normalized(y')
    requires CrossDials(left) && left.first.p.tieKey == TieKey(a, x, b, y) && left.second.p.tieKey == TieKey(a, x', b, y')
    requires CrossDials(right) && right.first.p.tieKey == TieKey(b, y, a, x) && right.second.p.tieKey == TieKey(b, y', a, x')
    ensures var l, r := Run(left.start, left.events), Run(right.start, right.events);
            && left.key in l.peers && right.key in r.peers
            && (if LexLe(TieKey(a, x, b, y), TieKey(a, x', b, y'))
                then l.peers[left.key] == left.first.Record() && r.peers[right.key] == right.first.Record()
                else l.peers[left.key] == left.second.Record() && r.peers[right.key] == right.second.Record())
            && l.peers[left.key].tieKey == r.peers[right.key].tieKey
  {
    hide Normalized, Run, TieKey, CrossDials, LexLe;
    KeyPresent(a, x, b, y);
    KeyPresent(a, x', b, y');
    TieKeysDiffer(a, b, x, y, x', y');
    TieKeySymmetric(a, x, b, y);
    TieKeySymmetric(a, x', b, y');
    SmallerHolds(left);
    SmallerHolds(right);
  }
}
