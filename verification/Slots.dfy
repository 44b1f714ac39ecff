/** Connection slots of a node (p2p/p2p.go), one function per locked section. */
module Slots {
  import opened Types
  import opened Order

  const MAX_PEERS := 32
  const RESERVED_OUTBOUND := 4
  const MAX_PENDING_OUTBOUND := 4
  const MAX_PENDING_INBOUND := 8
  const MAX_PENDING_PER_IP := 2
  const MAX_KNOWN := 1000

  /** Fifteen seconds, in the nanoseconds connection times are counted in. */
  const CROSS_DIAL_WINDOW := 15_000_000_000

  /** A handshake under way; an outbound one has a dial target. */
  datatype Reservation = Reservation(token: nat, target: string, sourceIp: string)

  /** `serial` tells two connections apart as a pointer comparison would. */
  datatype Peer = Peer(serial: nat, tieKey: string, remoteIp: string, outbound: bool, connectedAt: int)

  datatype Net = Net(
    peers: map<string, Peer>, pending: map<nat, Reservation>, dialing: map<string, nat>, targets: map<string, string>,
    known: set<string>, suppressed: set<string>, nextToken: nat)

  // ---- counts ----

  function Matching<K, V>(m: map<K, V>, f: V -> bool): set<K> {
    set k | k in m && f(m[k])
  }

  function InboundPeers(peers: map<string, Peer>): set<string> {
    Matching(peers, (p: Peer) => !p.outbound)
  }

  function PendingInbound(pending: map<nat, Reservation>): set<nat> {
    Matching(pending, (r: Reservation) => r.target == "")
  }

  function PendingOutbound(pending: map<nat, Reservation>): set<nat> {
    Matching(pending, (r: Reservation) => r.target != "")
  }

  function PendingFrom(pending: map<nat, Reservation>, ip: string): set<nat> {
    Matching(pending, (r: Reservation) => r.target == "" && r.sourceIp == ip)
  }

  lemma {:induction false} MatchingPut<K, V>(m: map<K, V>, k: K, v: V, f: V -> bool)
    ensures Matching(m[k := v], f) == if f(v) then Matching(m, f) + {k} else Matching(m, f) - {k}
  {
  }

  lemma {:induction false} MatchingAdd<K, V>(m: map<K, V>, k: K, v: V, f: V -> bool)
    requires k !in m
    ensures |Matching(m[k := v], f)| == |Matching(m, f)| + (if f(v) then 1 else 0)
  {
    hide Matching;
    MatchingPut(m, k, v, f);
    assert k !in Matching(m, f) by { NotMatching(m, k, f); }
    assert Matching(m, f) - {k} == Matching(m, f);
  }

  lemma {:induction false} NotMatching<K, V>(m: map<K, V>, k: K, f: V -> bool)
    requires k !in m
    ensures k !in Matching(m, f)
  {
  }

  lemma {:induction false} MatchingBound<K, V>(m: map<K, V>, k: K, v: V, f: V -> bool)
    ensures |Matching(m[k := v], f)| <= |Matching(m, f)| + (if f(v) then 1 else 0)
  {
    hide Matching;
    MatchingPut(m, k, v, f);
    var s := Matching(m, f);
    if k in s {
      assert s + {k} == s && |s - {k}| == |s| - 1;
    } else {
      assert s - {k} == s && |s + {k}| == |s| + 1;
    }
  }

  lemma {:induction false} MatchingDrop<K, V>(m: map<K, V>, k: K, f: V -> bool)
    requires k in m
    ensures |Matching(m - {k}, f)| == |Matching(m, f)| - (if f(m[k]) then 1 else 0)
  {
    var rest := m - {k};
    assert rest[k := m[k]] == m;
    MatchingAdd(rest, k, m[k], f);
  }

  lemma {:induction false} MapSizes<K, V>(m: map<K, V>, k: K, v: V)
    ensures k in m ==> |m[k := v]| == |m| && |m - {k}| == |m| - 1
    ensures k !in m ==> |m[k := v]| == |m| + 1
  {
    assert m[k := v].Keys == m.Keys + {k} && (m - {k}).Keys == m.Keys - {k};
    assert |m[k := v]| == |m[k := v].Keys| && |m| == |m.Keys| && |m - {k}| == |(m - {k}).Keys|;
    if k in m {
      assert m.Keys + {k} == m.Keys;
    }
  }

  // ---- the locked sections ----

  function ReserveSlot(n: Net, target: string, ip: string): Net {
    var token := n.nextToken + 1;
    n.(nextToken := token, pending := n.pending[token := Reservation(token, target, ip)],
       dialing := if target != "" then n.dialing[target := token] else n.dialing)
  }

  predicate InboundRoom(n: Net, ip: string) {
    && |n.peers| + |n.pending| < MAX_PEERS
    && |InboundPeers(n.peers)| + |PendingInbound(n.pending)| < MAX_PEERS - RESERVED_OUTBOUND
    && |PendingInbound(n.pending)| < MAX_PENDING_INBOUND
    && (ip != "" ==> |PendingFrom(n.pending, ip)| < MAX_PENDING_PER_IP)
  }

  function ReserveInbound(n: Net, ip: string): Net {
    if InboundRoom(n, ip) then ReserveSlot(n, "", ip) else n
  }

  predicate Holds(n: Net, r: Reservation) {
    r.token in n.pending && n.pending[r.token] == r
  }

  function ReleaseSlot(n: Net, r: Reservation): Net {
    if !Holds(n, r) then n
    else
      n.(pending := n.pending - {r.token},
         dialing := if r.target != "" && r.target in n.dialing && n.dialing[r.target] == r.token then n.dialing - {r.target} else n.dialing)
  }

  function RememberTarget(n: Net, target: string, key: string): Net {
    if target != "" && target !in n.suppressed then n.(targets := n.targets[target := key]) else n
  }

  function Remember(n: Net, target: string, dialable: string, key: string): Net {
    var a := RememberTarget(n, target, key);
    var b := RememberTarget(a, dialable, key);
    if dialable != "" && dialable !in n.suppressed && |n.known| < MAX_KNOWN then b.(known := n.known + {dialable}) else b
  }

  function Abs(x: int): int {
    if x < 0 then -x else x
  }

  /** `canReplaceConcurrentDuplicate`. */
  predicate CanReplace(existing: Peer, candidate: Peer) {
    && existing.remoteIp != "" && candidate.remoteIp != "" && existing.remoteIp == candidate.remoteIp
    && existing.tieKey != "" && candidate.tieKey != "" && !LexLe(existing.tieKey, candidate.tieKey)
    && Abs(candidate.connectedAt - existing.connectedAt) <= CROSS_DIAL_WINDOW
  }

  function Register(n: Net, r: Reservation, key: string, dialable: string, given: Peer): Net {
    if !Holds(n, r) then n
    else
      var m := ReleaseSlot(n, r);
      var p := given.(outbound := r.target != "");
      if key in m.peers then
        var e := m.peers[key];
        var k := if p.remoteIp != "" && p.remoteIp == e.remoteIp then Remember(m, r.target, dialable, key) else m;
        if CanReplace(e, p) then k.(peers := k.peers[key := p]) else k
      else if |m.peers| >= MAX_PEERS then m
      else Remember(m.(peers := m.peers[key := p]), r.target, dialable, key)
  }

  function Unregister(n: Net, key: string, owner: Peer): Net {
    if key !in n.peers || n.peers[key] != owner then n
    else n.(peers := n.peers - {key}, targets := map t | t in n.targets && n.targets[t] != key :: n.targets[t])
  }

  function Learn(n: Net, target: string): Net {
    if target == "" || target in n.suppressed || |n.known| >= MAX_KNOWN then n else n.(known := n.known + {target})
  }

  /** Configured seeds are known without counting against the limit. */
  function AddSeed(n: Net, target: string): Net {
    if target == "" || target in n.suppressed then n else n.(known := n.known + {target})
  }

  function Suppress(n: Net, target: string): Net {
    if target == "" then n
    else n.(suppressed := n.suppressed + {target}, known := n.known - {target}, targets := n.targets - {target})
  }

  /** Clean-up done while looking for dial targets: a suppressed address is forgotten, a finished peer's target freed. */
  function Tidy(n: Net, target: string): Net {
    n.(known := if target in n.suppressed then n.known - {target} else n.known,
       targets := if target in n.targets && n.targets[target] !in n.peers then n.targets - {target} else n.targets)
  }

  /** How many outbound handshakes one round may start. */
  function DialRoom(n: Net): int {
    var slots, outbound := MAX_PEERS - |n.peers| - |n.pending|, MAX_PENDING_OUTBOUND - |PendingOutbound(n.pending)|;
    if slots > outbound then outbound else slots
  }

  predicate Dialable(n: Net, t: string) {
    && t in n.known && t !in n.suppressed && t !in n.dialing
    && !(t in n.targets && n.targets[t] in n.peers)
  }

  function DialAll(n: Net, ts: seq<string>): Net {
    if ts == [] then n else ReserveSlot(DialAll(n, ts[..|ts| - 1]), ts[|ts| - 1], "")
  }

  /** A legal outcome of a dial round: different dialable targets, no more than there is room for. */
  predicate LegalRound(n: Net, ts: seq<string>) {
    && (|ts| == 0 || |ts| <= DialRoom(n))
    && (forall i :: 0 <= i < |ts| ==> Dialable(n, ts[i]))
    && (forall i, j :: 0 <= i < j < |ts| ==> ts[i] != ts[j])
  }

  // ---- the invariant ----

  ghost predicate DialingMatches(pending: map<nat, Reservation>, dialing: map<string, nat>) {
    && (forall t :: t in dialing ==> t != "" && dialing[t] in pending && pending[dialing[t]].target == t)
    && (forall k :: k in pending && pending[k].target != "" ==> pending[k].target in dialing && dialing[pending[k].target] == k)
  }

  ghost predicate TokensOk(pending: map<nat, Reservation>, next: nat) {
    forall k :: k in pending ==> pending[k].token == k && k <= next
  }

  ghost predicate PerIpOk(pending: map<nat, Reservation>) {
    forall ip :: ip != "" ==> |PendingFrom(pending, ip)| <= MAX_PENDING_PER_IP
  }

  ghost predicate CountsOk(peers: map<string, Peer>, pending: map<nat, Reservation>) {
    && |peers| + |pending| <= MAX_PEERS
    && |InboundPeers(peers)| + |PendingInbound(pending)| <= MAX_PEERS - RESERVED_OUTBOUND
    && |PendingOutbound(pending)| <= MAX_PENDING_OUTBOUND
    && |PendingInbound(pending)| <= MAX_PENDING_INBOUND
  }

  ghost predicate SlotsOk(n: Net) {
    CountsOk(n.peers, n.pending) && PerIpOk(n.pending) && DialingMatches(n.pending, n.dialing) && TokensOk(n.pending, n.nextToken)
    && "" !in n.known
  }

  // ---- pending handshakes come and go ----

  lemma {:induction false} AddPending(pending: map<nat, Reservation>, r: Reservation)
    requires r.token !in pending
    ensures var after := pending[r.token := r];
            && |after| == |pending| + 1
            && |PendingInbound(after)| == |PendingInbound(pending)| + (if r.target == "" then 1 else 0)
            && |PendingOutbound(after)| == |PendingOutbound(pending)| + (if r.target == "" then 0 else 1)
            && (forall ip :: |PendingFrom(after, ip)| == |PendingFrom(pending, ip)| + (if r.target == "" && r.sourceIp == ip then 1 else 0))
  {
    hide Matching;
    MapSizes(pending, r.token, r);
    MatchingAdd(pending, r.token, r, (x: Reservation) => x.target == "");
    MatchingAdd(pending, r.token, r, (x: Reservation) => x.target != "");
    forall ip ensures |PendingFrom(pending[r.token := r], ip)|
                   == |PendingFrom(pending, ip)| + (if r.target == "" && r.sourceIp == ip then 1 else 0) {
      AddFrom(pending, r, ip);
    }
  }

  lemma {:induction false} AddFrom(pending: map<nat, Reservation>, r: Reservation, ip: string)
    requires r.token !in pending
    ensures |PendingFrom(pending[r.token := r], ip)| == |PendingFrom(pending, ip)| + (if r.target == "" && r.sourceIp == ip then 1 else 0)
  {
    hide Matching;
    MatchingAdd(pending, r.token, r, (x: Reservation) => x.target == "" && x.sourceIp == ip);
  }

  lemma {:induction false} DropPending(pending: map<nat, Reservation>, token: nat)
    requires token in pending && pending[token].token == token
    ensures var after, r := pending - {token}, pending[token];
            && |after| == |pending| - 1
            && |PendingInbound(after)| == |PendingInbound(pending)| - (if r.target == "" then 1 else 0)
            && |PendingOutbound(after)| == |PendingOutbound(pending)| - (if r.target == "" then 0 else 1)
            && (forall ip :: |PendingFrom(after, ip)| <= |PendingFrom(pending, ip)|)
  {
    hide PendingInbound, PendingOutbound, PendingFrom;
    var after := pending - {token};
    assert after[token := pending[token]] == pending;
    AddPending(after, pending[token]);
  }

  lemma {:induction false} MatchAdd(pending: map<nat, Reservation>, dialing: map<string, nat>, r: Reservation)
    requires DialingMatches(pending, dialing) && r.token !in pending && (r.target != "" ==> r.target !in dialing)
    ensures DialingMatches(pending[r.token := r], if r.target != "" then dialing[r.target := r.token] else dialing)
  {
  }

  lemma {:induction false} MatchDrop(n: Net, r: Reservation)
    requires DialingMatches(n.pending, n.dialing) && Holds(n, r)
    ensures DialingMatches(ReleaseSlot(n, r).pending, ReleaseSlot(n, r).dialing)
  {
    var m := ReleaseSlot(n, r);
    forall t | t in m.dialing ensures t != "" && m.dialing[t] in m.pending && m.pending[m.dialing[t]].target == t {
      assert t in n.dialing;
    }
  }

  lemma {:induction false} ReserveKeeps(n: Net, target: string, ip: string)
    requires SlotsOk(n) && |n.peers| + |n.pending| < MAX_PEERS && (target != "" ==> ip == "" && target !in n.dialing)
    requires if target == "" then InboundRoom(n, ip) else |PendingOutbound(n.pending)| < MAX_PENDING_OUTBOUND
    ensures SlotsOk(ReserveSlot(n, target, ip))
  {
    hide PendingInbound, PendingOutbound, PendingFrom, InboundPeers, DialingMatches;
    var token := n.nextToken + 1;
    assert token !in n.pending;
    AddPending(n.pending, Reservation(token, target, ip));
    MatchAdd(n.pending, n.dialing, Reservation(token, target, ip));
  }

  lemma {:induction false} InboundKeeps(n: Net, ip: string)
    requires SlotsOk(n)
    ensures SlotsOk(ReserveInbound(n, ip))
  {
    hide SlotsOk, ReserveSlot;
    if InboundRoom(n, ip) {
      ReserveKeeps(n, "", ip);
    }
  }

  lemma {:induction false} ReleaseKeeps(n: Net, r: Reservation)
    requires SlotsOk(n)
    ensures SlotsOk(ReleaseSlot(n, r))
    ensures Holds(n, r) ==> CountsOk(n.peers, n.pending) && |n.peers| + |ReleaseSlot(n, r).pending| < MAX_PEERS
    ensures Holds(n, r) && r.target == "" ==>
      |InboundPeers(n.peers)| + |PendingInbound(ReleaseSlot(n, r).pending)| < MAX_PEERS - RESERVED_OUTBOUND
  {
    hide PendingInbound, PendingOutbound, PendingFrom, InboundPeers, DialingMatches;
    if Holds(n, r) {
      DropPending(n.pending, r.token);
      MatchDrop(n, r);
    }
  }

  // ---- peers come and go ----

  lemma {:induction false} PutPeer(peers: map<string, Peer>, key: string, p: Peer)
    ensures var after := peers[key := p];
            && |after| <= |peers| + 1
            && |InboundPeers(after)| <= |InboundPeers(peers)| + (if p.outbound then 0 else 1)
  {
    hide Matching;
    MapSizes(peers, key, p);
    MatchingBound(peers, key, p, (x: Peer) => !x.outbound);
  }

  lemma {:induction false} RememberKeeps(n: Net, target: string, dialable: string, key: string)
    requires SlotsOk(n)
    ensures var m := Remember(n, target, dialable, key);
            SlotsOk(m) && m.peers == n.peers && m.pending == n.pending && m.dialing == n.dialing && m.nextToken == n.nextToken
  {
    hide CountsOk, PerIpOk, DialingMatches, TokensOk;
  }

  lemma {:induction false} PutKeeps(n: Net, key: string, p: Peer)
    requires SlotsOk(n) && |n.peers| + |n.pending| < MAX_PEERS
    requires p.outbound || |InboundPeers(n.peers)| + |PendingInbound(n.pending)| < MAX_PEERS - RESERVED_OUTBOUND
    ensures SlotsOk(n.(peers := n.peers[key := p]))
  {
    hide PendingInbound, PendingOutbound, InboundPeers, PerIpOk, DialingMatches, TokensOk;
    PutPeer(n.peers, key, p);
  }

  lemma {:induction false} RegisterKeeps(n: Net, r: Reservation, key: string, dialable: string, p: Peer)
    requires SlotsOk(n)
    ensures SlotsOk(Register(n, r, key, dialable, p))
  {
    hide SlotsOk, CountsOk, Remember, InboundPeers, PendingInbound, CanReplace, ReleaseSlot;
    if Holds(n, r) {
      ReleaseKeeps(n, r);
      ReleaseLeaves(n, r);
      var m := ReleaseSlot(n, r);
      var q := p.(outbound := r.target != "");
      RememberKeeps(m, r.target, dialable, key);
      PutKeeps(m, key, q);
      PutKeeps(Remember(m, r.target, dialable, key), key, q);
      RememberKeeps(m.(peers := m.peers[key := q]), r.target, dialable, key);
    }
  }

  lemma {:induction false} ReleaseLeaves(n: Net, r: Reservation)
    ensures ReleaseSlot(n, r).peers == n.peers
  {
  }

  /** The peer-limit check in registration never fires: the slot was reserved. */
  lemma {:induction false} RegisterHasRoom(n: Net, r: Reservation)
    requires SlotsOk(n) && Holds(n, r)
    ensures |ReleaseSlot(n, r).peers| < MAX_PEERS
  {
    hide SlotsOk, CountsOk, InboundPeers, PendingInbound, ReleaseSlot;
    ReleaseKeeps(n, r);
    ReleaseLeaves(n, r);
  }

  lemma {:induction false} UnregisterKeeps(n: Net, key: string, owner: Peer)
    requires SlotsOk(n)
    ensures SlotsOk(Unregister(n, key, owner))
  {
    hide PerIpOk, DialingMatches, TokensOk;
    if key in n.peers {
      hide Matching;
      MapSizes(n.peers, key, n.peers[key]);
      MatchingDrop(n.peers, key, (x: Peer) => !x.outbound);
    }
  }

  // ---- dial rounds ----

  lemma {:induction false} LegalInit(n: Net, ts: seq<string>)
    requires LegalRound(n, ts) && ts != [] && "" !in n.known
    ensures LegalRound(n, ts[..|ts| - 1]) && |ts| <= DialRoom(n)
    ensures ts[|ts| - 1] !in ts[..|ts| - 1] && ts[|ts| - 1] !in n.dialing && ts[|ts| - 1] != ""
    ensures forall t :: t in ts <==> t in ts[..|ts| - 1] || t == ts[|ts| - 1]
  {
    hide DialRoom;
    var init, last := ts[..|ts| - 1], ts[|ts| - 1];
    assert Dialable(n, last);
    assert ts == init + [last];
  }

  /** Pending outbound handshakes after a round. */
  ghost predicate Dialed(n: Net, m: Net, ts: seq<string>) {
    && |m.pending| == |n.pending| + |ts|
    && |PendingOutbound(m.pending)| == |PendingOutbound(n.pending)| + |ts|
    && (forall t :: t in m.dialing <==> t in n.dialing || t in ts)
    && m == n.(pending := m.pending, dialing := m.dialing, nextToken := m.nextToken)
  }

  lemma {:induction false} DialOne(n: Net, m: Net, ts: seq<string>, last: string)
    requires SlotsOk(m) && Dialed(n, m, ts) && |ts| + 1 <= DialRoom(n)
    requires last !in ts && last !in n.dialing && last != ""
    ensures SlotsOk(ReserveSlot(m, last, "")) && Dialed(n, ReserveSlot(m, last, ""), ts + [last])
  {
    hide PendingOutbound, PendingInbound, PendingFrom, InboundPeers, CountsOk, PerIpOk, DialingMatches;
    ReserveKeeps(m, last, "");
    AddPending(m.pending, Reservation(m.nextToken + 1, last, ""));
  }

  lemma {:induction false} DialAllKeeps(n: Net, ts: seq<string>)
    requires SlotsOk(n) && LegalRound(n, ts)
    ensures SlotsOk(DialAll(n, ts)) && Dialed(n, DialAll(n, ts), ts)
  {
    hide SlotsOk, LegalRound, ReserveSlot, DialRoom, PendingOutbound;
    if ts != [] {
      var init, last := ts[..|ts| - 1], ts[|ts| - 1];
      NoEmptyTarget(n);
      LegalInit(n, ts);
      DialAllKeeps(n, init);
      DialOne(n, DialAll(n, init), init, last);
      assert ts == init + [last];
    }
  }

  lemma {:induction false} NoEmptyTarget(n: Net)
    requires SlotsOk(n)
    ensures "" !in n.known
  {
  }

  // ---- whole runs ----

  datatype Event =
    | InboundArrives(ip: string)
    | DialRound(ts: seq<string>)
    | TargetChecked(target: string)
    | HandshakeEnds(r: Reservation)
    | PeerReady(r: Reservation, key: string, dialable: string, p: Peer)
    | PeerGone(key: string, owner: Peer)
    | AddressHeard(target: string)
    | SelfFound(target: string)
    | SeedConfigured(target: string)

  function Step(n: Net, e: Event): Net {
    match e
    case InboundArrives(ip) => ReserveInbound(n, ip)
    case DialRound(ts) => if LegalRound(n, ts) then DialAll(n, ts) else n
    case TargetChecked(target) => Tidy(n, target)
    case HandshakeEnds(r) => ReleaseSlot(n, r)
    case PeerReady(r, key, dialable, p) => Register(n, r, key, dialable, p)
    case PeerGone(key, owner) => Unregister(n, key, owner)
    case AddressHeard(target) => Learn(n, target)
    case SelfFound(target) => Suppress(n, target)
    case SeedConfigured(target) => AddSeed(n, target)
  }

  lemma {:induction false} StepKeeps(n: Net, e: Event)
    requires SlotsOk(n)
    ensures SlotsOk(Step(n, e))
  {
    hide CountsOk, PerIpOk, DialingMatches, TokensOk, ReserveInbound, DialAll, ReleaseSlot, Register, Unregister, LegalRound;
    match e
    case InboundArrives(ip) => InboundKeeps(n, ip);
    case DialRound(ts) => if LegalRound(n, ts) { DialAllKeeps(n, ts); }
    case TargetChecked(target) =>
    case HandshakeEnds(r) => ReleaseKeeps(n, r);
    case PeerReady(r, key, dialable, p) => RegisterKeeps(n, r, key, dialable, p);
    case PeerGone(key, owner) => UnregisterKeeps(n, key, owner);
    case AddressHeard(target) =>
    case SelfFound(target) =>
    case SeedConfigured(target) =>
  }

  function Start(): Net {
    Net(map[], map[], map[], map[], {}, {}, 0)
  }

  function Run(n: Net, events: seq<Event>): Net {
    if events == [] then n else Step(Run(n, events[..|events| - 1]), events[|events| - 1])
  }

  lemma {:induction false} RunKeeps(n: Net, events: seq<Event>)
    requires SlotsOk(n)
    ensures SlotsOk(Run(n, events))
  {
    hide SlotsOk, Step;
    if events != [] {
      RunKeeps(n, events[..|events| - 1]);
      StepKeeps(Run(n, events[..|events| - 1]), events[|events| - 1]);
    }
  }

  /** Whatever happens, in whatever order: at most 32 connections made or being made, at most 28 of them inbound, at most
      4 dials and 8 incoming handshakes (2 per address) in progress, and the dial table is exactly the outbound handshakes. */
  lemma {:induction false} SlotBounds(events: seq<Event>)
    ensures var n := Run(Start(), events);
            && |n.peers| + |n.pending| <= 32
            && |InboundPeers(n.peers)| + |PendingInbound(n.pending)| <= 28
            && |PendingOutbound(n.pending)| <= 4 && |PendingInbound(n.pending)| <= 8
            && (forall ip :: ip != "" ==> |PendingFrom(n.pending, ip)| <= 2)
            && DialingMatches(n.pending, n.dialing)
  {
    hide Run, InboundPeers, PendingInbound, PendingOutbound, PendingFrom, DialingMatches;
    StartOk();
    RunKeeps(Start(), events);
  }

  lemma {:induction false} StartOk()
    ensures SlotsOk(Start())
  {
    var none: map<nat, Reservation> := map[];
    assert PendingInbound(none) == {} && PendingOutbound(none) == {} && InboundPeers(map[]) == {};
    assert forall ip :: PendingFrom(none, ip) == {};
  }
}
