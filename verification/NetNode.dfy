/** The node's slot bookkeeping as it is performed in place (p2p/p2p.go). */
module NetNode {
  import opened Types
  import opened Sorting
  import opened Order
  import opened Slots

  // ---- one dial round, step by step ----

  /** `m` is `n` after the targets `ts` were reserved, give or take tidied addresses. */
  ghost predicate InRound(n: Net, m: Net, ts: seq<string>) {
    && LegalRound(n, ts)
    && m == DialAll(n, ts).(known := m.known, targets := m.targets)
    && m.known <= n.known
    && (forall t :: Dialable(m, t) <==> Dialable(n, t) && t !in ts)
  }

  lemma {:induction false} RoundStarts(n: Net)
    ensures InRound(n, n, [])
  {
    hide Dialable;
  }

  lemma {:induction false} TidyKeepsRound(n: Net, m: Net, ts: seq<string>, m': Net, target: string)
    requires InRound(n, m, ts) && SlotsOk(n)
    requires m' == m.(known := m'.known, targets := m'.targets)
    requires m'.known == m.known || (target in m.suppressed && m'.known == m.known - {target})
    requires m'.targets == m.targets || (target in m.targets && m.targets[target] !in m.peers && m'.targets == m.targets - {target})
    ensures InRound(n, m', ts)
  {
    hide LegalRound, DialAll, SlotsOk;
    forall t ensures Dialable(m', t) <==> Dialable(m, t) {
    }
  }

  lemma {:induction false} ReserveInRound(n: Net, m: Net, ts: seq<string>, t: string)
    requires InRound(n, m, ts) && SlotsOk(n) && Dialable(m, t) && |ts| < DialRoom(n)
    ensures InRound(n, ReserveSlot(m, t, ""), ts + [t]) && t != "" && t !in m.dialing
  {
    hide SlotsOk, DialRoom, DialAll;
    NoEmptyTarget(n);
    var ts' := ts + [t];
    assert LegalRound(n, ts') by {
      hide Dialable;
      assert forall i :: 0 <= i < |ts'| ==> ts'[i] in ts || ts'[i] == t;
    }
    DialMore(n, m, ts, t);
    var m' := ReserveSlot(m, t, "");
    forall u ensures Dialable(m', u) <==> Dialable(m, u) && u != t {
      assert m'.dialing == m.dialing[t := m.nextToken + 1];
    }
    assert forall u :: u in ts' <==> u in ts || u == t;
  }

  lemma {:induction false} DialMore(n: Net, m: Net, ts: seq<string>, t: string)
    requires m == DialAll(n, ts).(known := m.known, targets := m.targets) && t != ""
    ensures var m' := ReserveSlot(m, t, ""); m' == DialAll(n, ts + [t]).(known := m'.known, targets := m'.targets)
  {
    assert (ts + [t])[..|ts|] == ts;
  }

  /** Starting anywhere, a full turn visits every position. */
  lemma {:induction false} Rotation(len: nat, start: nat, j: nat) returns (o: nat)
    requires start < len && j < len
    ensures o < len && (start + o) % len == j
  {
    o := if j >= start then j - start else j - start + len;
    Wrapped(j, len);
    assert start + o == j || start + o == j + len;
  }

  lemma {:induction false} Wrapped(j: nat, len: nat)
    requires j < len
    ensures j % len == j && (j + len) % len == j
  {
  }

  // ---- which targets a round picks, and in what order ----

  /** The dialable targets of a list, in its order. */
  ghost function DialableOf(n: Net, ts: seq<string>): seq<string> {
    if ts == [] then []
    else DialableOf(n, ts[..|ts| - 1]) + (if Dialable(n, ts[|ts| - 1]) then [ts[|ts| - 1]] else [])
  }

  lemma {:induction false} DialableMembers(n: Net, ts: seq<string>)
    ensures forall t :: t in DialableOf(n, ts) <==> t in ts && Dialable(n, t)
  {
    hide Dialable;
    if ts != [] {
      DialableMembers(n, ts[..|ts| - 1]);
      assert ts == ts[..|ts| - 1] + [ts[|ts| - 1]];
    }
  }

  /** Going once round the ring from position `start + o`: the first `k` targets that can be dialled and are not taken. */
  ghost function Picks(n: Net, ring: seq<string>, start: nat, o: nat, taken: seq<string>, k: int): seq<string>
    requires |ring| > 0
    decreases |ring| - o
  {
    if o >= |ring| || k <= 0 then []
    else
      var t := ring[(start + o) % |ring|];
      if Dialable(n, t) && t !in taken then [t] + Picks(n, ring, start, o + 1, taken + [t], k - 1)
      else Picks(n, ring, start, o + 1, taken, k)
  }

  /** The same from a cursor, which may be past the end of the list. */
  ghost function RingPicks(n: Net, ring: seq<string>, cursor: nat, taken: seq<string>, k: int): seq<string> {
    if ring == [] then [] else Picks(n, ring, cursor % |ring|, 0, taken, k)
  }

  /** The list turned so that position `c` comes first. */
  function Rotated(ring: seq<string>, c: nat): (r: seq<string>)
    requires c <= |ring|
    ensures |r| == |ring|
  {
    ring[c..] + ring[..c]
  }

  /** The targets that can be dialled and are not taken, each at its first place. */
  ghost function Untaken(n: Net, ts: seq<string>, taken: seq<string>): seq<string> {
    if ts == [] then []
    else if Dialable(n, ts[0]) && ts[0] !in taken then [ts[0]] + Untaken(n, ts[1..], taken + [ts[0]])
    else Untaken(n, ts[1..], taken)
  }

  function FirstOf(ts: seq<string>, k: int): seq<string> {
    if k <= 0 then [] else if |ts| <= k then ts else ts[..k]
  }

  lemma {:induction false} RotatedAt(ring: seq<string>, c: nat, o: nat)
    requires c < |ring| && o < |ring|
    ensures Rotated(ring, c)[o] == ring[(c + o) % |ring|]
  {
    Wrapped(if c + o < |ring| then c + o else c + o - |ring|, |ring|);
  }

  lemma {:induction false} FirstOfMore(t: string, ts: seq<string>, k: int)
    requires k > 0
    ensures FirstOf([t] + ts, k) == [t] + FirstOf(ts, k - 1)
  {
  }

  lemma {:induction false} PicksFromRotation(n: Net, ring: seq<string>, c: nat, o: nat, taken: seq<string>, k: int)
    requires c < |ring| && o <= |ring|
    ensures Picks(n, ring, c, o, taken, k) == FirstOf(Untaken(n, Rotated(ring, c)[o..], taken), k)
    decreases |ring| - o
  {
    hide Dialable, Rotated;
    var rest := Rotated(ring, c)[o..];
    if o < |ring| && k > 0 {
      var t := rest[0];
      RotatedAt(ring, c, o);
      assert rest[1..] == Rotated(ring, c)[o + 1..];
      if Dialable(n, t) && t !in taken {
        PicksFromRotation(n, ring, c, o + 1, taken + [t], k - 1);
        FirstOfMore(t, Untaken(n, rest[1..], taken + [t]), k);
      } else {
        PicksFromRotation(n, ring, c, o + 1, taken, k);
      }
    }
  }

  /** Drawing from the ring: turn the list to the cursor, keep what can be dialled and is not taken, and take the first `k`. */
  lemma {:induction false} RingIsRotation(n: Net, ring: seq<string>, cursor: nat, taken: seq<string>, k: int)
    requires ring != []
    ensures RingPicks(n, ring, cursor, taken, k)
         == FirstOf(Untaken(n, ring[cursor % |ring|..] + ring[..cursor % |ring|], taken), k)
  {
    hide Dialable, Untaken, Picks, FirstOf;
    PicksFromRotation(n, ring, cursor % |ring|, 0, taken, k);
  }

  lemma {:induction false} PickOne(n: Net, ring: seq<string>, start: nat, o: nat, taken: seq<string>, k: int)
    requires o < |ring| && k > 0
    ensures var t := ring[(start + o) % |ring|];
            taken + Picks(n, ring, start, o, taken, k)
            == if Dialable(n, t) && t !in taken then (taken + [t]) + Picks(n, ring, start, o + 1, taken + [t], k - 1)
               else taken + Picks(n, ring, start, o + 1, taken, k)
  {
    hide Dialable;
    var t := ring[(start + o) % |ring|];
    var more := Picks(n, ring, start, o + 1, taken + [t], k - 1);
    assert taken + ([t] + more) == (taken + [t]) + more;
  }

  lemma {:induction false} PicksDone(n: Net, ring: seq<string>, start: nat, o: nat, taken: seq<string>, k: int)
    requires |ring| > 0 && (o >= |ring| || k <= 0)
    ensures Picks(n, ring, start, o, taken, k) == []
  {
  }

  /** The position before the advanced cursor is the one just used. */
  lemma {:induction false} CursorBack(len: nat, index: nat)
    requires index < len
    ensures ((index + 1) % len + len - 1) % len == index
  {
    if index + 1 == len {
      Wrapped(0, len);
      Wrapped(index, len);
    } else {
      Wrapped(index + 1, len);
      Wrapped(index, len);
    }
  }

  lemma {:induction false} AvailableInRound(n: Net, m: Net, ts: seq<string>, t: string)
    requires InRound(n, m, ts)
    ensures Dialable(m, t) <==> Dialable(n, t) && t !in ts
  {
    hide Dialable, LegalRound, DialAll;
  }

  function TargetsOf(rs: seq<Reservation>): (ts: seq<string>)
    ensures |ts| == |rs|
    ensures forall i :: 0 <= i < |rs| ==> ts[i] == rs[i].target
  {
    if rs == [] then [] else TargetsOf(rs[..|rs| - 1]) + [rs[|rs| - 1].target]
  }

  lemma {:induction false} TargetsSnoc(rs: seq<Reservation>, r: Reservation)
    ensures TargetsOf(rs + [r]) == TargetsOf(rs) + [r.target]
  {
    assert (rs + [r])[..|rs|] == rs;
  }

  function Least(a: int, b: int): int {
    if a < b then a else b
  }

  lemma {:induction false} NoPicks(n: Net, ring: seq<string>, cursor: nat, taken: seq<string>, k: int)
    requires ring == [] || k <= 0
    ensures taken + RingPicks(n, ring, cursor, taken, k) == taken
  {
  }

  /** Seeds not suppressed and not listed yet, each at its first place. */
  function FreshSeeds(seeds: seq<string>, suppressed: set<string>, listed: set<string>): seq<string> {
    if seeds == [] then []
    else if seeds[0] in suppressed || seeds[0] in listed then FreshSeeds(seeds[1..], suppressed, listed)
    else [seeds[0]] + FreshSeeds(seeds[1..], suppressed, listed + {seeds[0]})
  }

  /** Each once, and exactly those. */
  lemma {:induction false} FreshSeedsFacts(seeds: seq<string>, suppressed: set<string>, listed: set<string>)
    ensures var r := FreshSeeds(seeds, suppressed, listed);
            && (forall t :: t in r <==> t in seeds && t !in suppressed && t !in listed)
            && (forall i, j :: 0 <= i < j < |r| ==> r[i] != r[j])
  {
    if seeds != [] {
      var more := if seeds[0] in suppressed || seeds[0] in listed then listed else listed + {seeds[0]};
      FreshSeedsFacts(seeds[1..], suppressed, more);
      assert forall t :: t in seeds <==> t == seeds[0] || t in seeds[1..];
    }
  }

  class Node {
    var peers: map<string, Peer>
    var pending: map<nat, Reservation>
    var dialing: map<string, nat>
    var targets: map<string, string>
    var known: set<string>
    var suppressed: set<string>
    var nextToken: nat
    var trustedSeeds: set<string>
    var seedTargets: seq<string>
    var seedCursor: nat
    var gossipCursor: nat

    ghost function View(): Net
      reads this
    {
      Net(peers, pending, dialing, targets, known, suppressed, nextToken)
    }

    constructor ()
      ensures View() == Start() && trustedSeeds == {} && seedTargets == []
    {
      peers, pending, dialing, targets := map[], map[], map[], map[];
      known, suppressed, nextToken := {}, {}, 0;
      trustedSeeds, seedTargets, seedCursor, gossipCursor := {}, [], 0, 0;
    }

    /** The start of the node: configured seeds become known and are listed once each, in the order given. */
    method AddSeeds(seeds: seq<string>)
      requires "" !in seeds
      modifies this`known, this`trustedSeeds, this`seedTargets
      ensures View() == old(View()).(known := known)
      ensures forall t :: t in known <==> t in old(known) || (t in seeds && t !in suppressed)
      ensures forall t :: t in trustedSeeds <==> t in old(trustedSeeds) || (t in seeds && t !in suppressed)
      ensures seedTargets == old(seedTargets) + FreshSeeds(seeds, suppressed, old(trustedSeeds))
    {
      var i := 0;
      while i < |seeds|
        invariant 0 <= i <= |seeds| && View() == old(View()).(known := known)
        invariant forall t :: t in known <==> t in old(known) || (t in seeds[..i] && t !in suppressed)
        invariant forall t :: t in trustedSeeds <==> t in old(trustedSeeds) || (t in seeds[..i] && t !in suppressed)
        invariant old(seedTargets) + FreshSeeds(seeds, suppressed, old(trustedSeeds))
               == seedTargets + FreshSeeds(seeds[i..], suppressed, trustedSeeds)
      {
        var target := seeds[i];
        assert seeds[..i + 1] == seeds[..i] + [target] && seeds[i..][1..] == seeds[i + 1..];
        if target !in suppressed {
          known := known + {target};
          if target !in trustedSeeds {
            trustedSeeds := trustedSeeds + {target};
            seedTargets := seedTargets + [target];
          }
        }
        i := i + 1;
      }
      assert seeds[..i] == seeds;
    }

    method ReserveHandshakeLocked(target: string, ip: string) returns (r: Reservation)
      modifies this`nextToken, this`pending, this`dialing
      ensures View() == ReserveSlot(old(View()), target, ip)
      ensures r == Reservation(old(nextToken) + 1, target, ip)
    {
      nextToken := nextToken + 1;
      r := Reservation(nextToken, target, ip);
      pending := pending[r.token := r];
      if target != "" {
        dialing := dialing[target := r.token];
      }
    }

    /** Counts peers and pending handshakes the way the code does, one entry at a time. */
    method CountInbound(ip: string) returns (inbound: nat, waiting: nat, fromSource: nat)
      ensures inbound == |InboundPeers(peers)| && waiting == |PendingInbound(pending)|
      ensures ip != "" ==> fromSource == |PendingFrom(pending, ip)|
    {
      inbound, waiting, fromSource := 0, 0, 0;
      var names := peers.Keys;
      ghost var seenPeers: set<string> := {};
      while names != {}
        invariant names <= peers.Keys && seenPeers <= InboundPeers(peers) && inbound == |seenPeers|
        invariant forall k :: k in InboundPeers(peers) <==> k in seenPeers || (k in names && !peers[k].outbound)
        invariant seenPeers !! names
        decreases |names|
      {
        var k :| k in names;
        names := names - {k};
        if !peers[k].outbound {
          inbound := inbound + 1;
          seenPeers := seenPeers + {k};
        }
      }
      assert seenPeers == InboundPeers(peers);
      waiting, fromSource := CountPending(ip);
    }

    method CountPending(ip: string) returns (waiting: nat, fromSource: nat)
      ensures waiting == |PendingInbound(pending)| && (ip != "" ==> fromSource == |PendingFrom(pending, ip)|)
    {
      waiting, fromSource := 0, 0;
      var tokens := pending.Keys;
      ghost var seen: set<nat>, mine: set<nat> := {}, {};
      while tokens != {}
        invariant tokens <= pending.Keys && waiting == |seen| && (ip != "" ==> fromSource == |mine|)
        invariant forall k :: k in PendingInbound(pending) <==> k in seen || (k in tokens && pending[k].target == "")
        invariant forall k :: k in PendingFrom(pending, ip) <==> k in mine || (k in tokens && pending[k].target == "" && pending[k].sourceIp == ip)
        invariant seen !! tokens && mine !! tokens
        decreases |tokens|
      {
        AnyToken(tokens);
        var k :| k in tokens;
        tokens := tokens - {k};
        if pending[k].target == "" {
          waiting := waiting + 1;
          seen := seen + {k};
          if pending[k].sourceIp == ip {
            mine := mine + {k};
          }
          if ip != "" && pending[k].sourceIp == ip {
            fromSource := fromSource + 1;
          }
        }
      }
      assert seen == PendingInbound(pending) && mine == PendingFrom(pending, ip);
    }

    method ReserveInboundHandshake(ip: string) returns (r: Option<Reservation>)
      modifies this`nextToken, this`pending, this`dialing
      ensures View() == ReserveInbound(old(View()), ip)
      ensures r == if InboundRoom(old(View()), ip) then Some(Reservation(old(nextToken) + 1, "", ip)) else None
    {
      hide InboundPeers, PendingInbound, PendingFrom;
      var inbound, waiting, fromSource := CountInbound(ip);
      if |peers| + |pending| >= MAX_PEERS || inbound + waiting >= MAX_PEERS - RESERVED_OUTBOUND
         || waiting >= MAX_PENDING_INBOUND || (ip != "" && fromSource >= MAX_PENDING_PER_IP) {
        return None;
      }
      var made := ReserveHandshakeLocked("", ip);
      return Some(made);
    }

    method ReleaseHandshakeLocked(r: Reservation) returns (ok: bool)
      modifies this`pending, this`dialing
      ensures View() == ReleaseSlot(old(View()), r) && ok == Holds(old(View()), r)
    {
      if r.token !in pending || pending[r.token] != r {
        return false;
      }
      pending := pending - {r.token};
      if r.target != "" && r.target in dialing && dialing[r.target] == r.token {
        dialing := dialing - {r.target};
      }
      return true;
    }

    method RememberPeerTargets(target: string, dialable: string, key: string)
      modifies this`targets, this`known
      ensures View() == Remember(old(View()), target, dialable, key)
    {
      if target != "" && target !in suppressed {
        targets := targets[target := key];
      }
      if dialable != "" && dialable !in suppressed {
        targets := targets[dialable := key];
        if |known| < MAX_KNOWN {
          known := known + {dialable};
        }
      }
    }

    /** Returns whether the new connection is kept, and the connection it displaces. */
    method RegisterPeer(r: Reservation, key: string, dialable: string, given: Peer) returns (kept: bool, closed: Option<Peer>)
      modifies this`peers, this`pending, this`dialing, this`targets, this`known
      ensures View() == Register(old(View()), r, key, dialable, given)
      ensures SlotsOk(old(View())) ==>
        (kept <==> Holds(old(View()), r) && (key in old(peers) ==> CanReplace(old(peers)[key], given.(outbound := r.target != ""))))
      ensures closed.Some? <==> kept && key in old(peers)
    {
      hide CanReplace, Remember, SlotsOk, ReleaseSlot, Holds;
      ghost var start := View();
      ReleaseLeaves(start, r);
      ReleaseIdle(start, r);
      var ok := ReleaseHandshakeLocked(r);
      if !ok {
        return false, None;
      }
      if SlotsOk(start) {
        RegisterHasRoom(start, r);
      }
      var p := given.(outbound := r.target != "");
      if key in peers {
        kept, closed := ReplaceDuplicate(r.target, key, dialable, p);
        return;
      }
      if |peers| >= MAX_PEERS {
        return false, None;
      }
      peers := peers[key := p];
      RememberPeerTargets(r.target, dialable, key);
      return true, None;
    }

    /** The branch taken when the peer is already connected. */
    method ReplaceDuplicate(target: string, key: string, dialable: string, p: Peer) returns (kept: bool, closed: Option<Peer>)
      requires key in peers
      modifies this`peers, this`targets, this`known
      ensures var n, e := old(View()), old(peers)[key];
              var k := if p.remoteIp != "" && p.remoteIp == e.remoteIp then Remember(n, target, dialable, key) else n;
              View() == if CanReplace(e, p) then k.(peers := k.peers[key := p]) else k
      ensures kept == CanReplace(old(peers)[key], p)
      ensures closed == if kept then Some(old(peers)[key]) else None
    {
      hide CanReplace, Remember;
      var existing := peers[key];
      if p.remoteIp != "" && p.remoteIp == existing.remoteIp {
        RememberOnly(View(), target, dialable, key);
        RememberPeerTargets(target, dialable, key);
      }
      if !CanReplace(existing, p) {
        return false, None;
      }
      peers := peers[key := p];
      return true, Some(existing);
    }

    method UnregisterPeer(key: string, owner: Peer) returns (ok: bool)
      modifies this`peers, this`targets
      ensures View() == Unregister(old(View()), key, owner)
      ensures ok <==> key in old(peers) && old(peers)[key] == owner
    {
      if key !in peers || peers[key] != owner {
        return false;
      }
      peers := peers - {key};
      var names := targets.Keys;
      while names != {}
        invariant names <= old(targets).Keys && peers == old(peers) - {key}
        invariant forall t :: t in targets <==> t in old(targets) && (t in names || old(targets)[t] != key)
        invariant forall t :: t in targets ==> targets[t] == old(targets)[t]
        decreases |names|
      {
        var t :| t in names;
        names := names - {t};
        if t in targets && targets[t] == key {
          targets := targets - {t};
        }
      }
      assert targets == Unregister(old(View()), key, owner).targets;
      return true;
    }

    /** Whether a target may be dialled now, tidying stale entries on the way. */
    method IsAvailable(target: string, ghost n: Net, ghost ts: seq<string>) returns (ok: bool)
      requires SlotsOk(n) && InRound(n, View(), ts)
      modifies this`known, this`targets
      ensures InRound(n, View(), ts) && ok == Dialable(View(), target) && ok == Dialable(old(View()), target)
    {
      hide SlotsOk, InRound;
      ghost var m := View();
      if target !in known {
        return false;
      }
      if target in suppressed {
        known := known - {target};
        TidyKeepsRound(n, m, ts, View(), target);
        return false;
      }
      if target in dialing {
        return false;
      }
      if target in targets {
        if targets[target] in peers {
          return false;
        }
        targets := targets - {target};
        TidyKeepsRound(n, m, ts, View(), target);
      }
      return true;
    }

    /** Reserves the first `limit` available candidates that fit, starting at the cursor and going round once; the cursor
        moves past the last one reserved. */
    method ReserveRotating(candidates: seq<string>, cursor: nat, limit: int, room: int, given: seq<Reservation>, ghost n: Net)
      returns (next: nat, out: seq<Reservation>)
      requires SlotsOk(n) && InRound(n, View(), TargetsOf(given)) && room == DialRoom(n)
      modifies this`known, this`targets, this`nextToken, this`pending, this`dialing
      ensures InRound(n, View(), TargetsOf(out)) && given <= out && |out| <= |given| + (if limit > 0 then limit else 0)
      ensures |given| <= room ==> |out| <= room
      ensures TargetsOf(out) == TargetsOf(given) + RingPicks(n, candidates, cursor, TargetsOf(given), Least(limit, room - |given|))
      ensures if |out| == |given| then next == cursor
              else next < |candidates| && candidates[(next + |candidates| - 1) % |candidates|] == out[|out| - 1].target
      ensures forall i :: |given| <= i < |out| ==> out[i].target in candidates
      ensures |out| >= room || |out| - |given| >= limit
              || forall j :: 0 <= j < |candidates| ==> Dialable(n, candidates[j]) ==> candidates[j] in TargetsOf(out)
    {
      hide SlotsOk, InRound, DialRoom, Dialable, Picks, TargetsOf;
      next, out := cursor, given;
      if |candidates| == 0 || limit <= 0 {
        NoPicks(n, candidates, cursor, TargetsOf(given), Least(limit, room - |given|));
        return;
      }
      var start, added, offset := cursor % |candidates|, 0, 0;
      ghost var k := Least(limit, room - |given|);
      while offset < |candidates| && added < limit && |out| < room
        invariant 0 <= offset <= |candidates| && 0 <= added <= limit && |out| == |given| + added
        invariant InRound(n, View(), TargetsOf(out)) && given <= out && (|given| <= room ==> |out| <= room)
        invariant TargetsOf(out) + Picks(n, candidates, start, offset, TargetsOf(out), k - added)
               == TargetsOf(given) + Picks(n, candidates, start, 0, TargetsOf(given), k)
        invariant if added == 0 then next == cursor
                  else next < |candidates| && candidates[(next + |candidates| - 1) % |candidates|] == out[|out| - 1].target
        invariant forall i :: |given| <= i < |out| ==> out[i].target in candidates
        invariant forall o :: 0 <= o < offset ==> Settled(n, candidates, start, o, TargetsOf(out))
      {
        var index := (start + offset) % |candidates|;
        var ok := IsAvailable(candidates[index], n, TargetsOf(out));
        ghost var before := TargetsOf(out);
        AvailableInRound(n, View(), before, candidates[index]);
        PickOne(n, candidates, start, offset, before, k - added);
        if ok {
          ReserveInRound(n, View(), TargetsOf(out), candidates[index]);
          var r := ReserveHandshakeLocked(candidates[index], "");
          TargetsSnoc(out, r);
          out := out + [r];
          added := added + 1;
          next := (index + 1) % |candidates|;
          CursorBack(|candidates|, index);
        } else {
          RefusedInRound(n, View(), TargetsOf(out), candidates[index]);
        }
        SettledGrows(n, candidates, start, before, TargetsOf(out), offset);
        offset := offset + 1;
      }
      PicksDone(n, candidates, start, offset, TargetsOf(out), k - added);
      if |out| < room && added < limit {
        AllSettled(n, candidates, start, TargetsOf(out));
      }
    }

    /** Configured seeds that can be dialled now, in configured order. */
    method SeedCandidates(ghost n: Net) returns (seeds: seq<string>)
      requires SlotsOk(n) && InRound(n, View(), [])
      modifies this`known, this`targets
      ensures InRound(n, View(), [])
      ensures seeds == DialableOf(n, seedTargets)
    {
      hide SlotsOk, InRound, Dialable;
      seeds := [];
      var i := 0;
      while i < |seedTargets|
        invariant 0 <= i <= |seedTargets| && InRound(n, View(), [])
        invariant seeds == DialableOf(n, seedTargets[..i])
      {
        var ok := IsAvailable(seedTargets[i], n, []);
        SameInRound(n, View(), seedTargets[i]);
        if ok {
          seeds := seeds + [seedTargets[i]];
        }
        assert seedTargets[..i + 1][..i] == seedTargets[..i];
        i := i + 1;
      }
      assert seedTargets[..i] == seedTargets;
    }

    /** Every other known address that can be dialled now, sorted; the map is visited in an arbitrary order. */
    method GossipCandidates(ghost n: Net) returns (gossip: seq<string>)
      requires SlotsOk(n) && InRound(n, View(), [])
      modifies this`known, this`targets
      ensures InRound(n, View(), [])
      ensures forall t :: t in gossip <==> t !in trustedSeeds && Dialable(n, t)
      ensures Sorted(gossip, LexLe) && (forall i, j :: 0 <= i < j < |gossip| ==> gossip[i] != gossip[j])
    {
      hide SlotsOk, InRound, Dialable;
      gossip := [];
      var names := known;
      KnownInRound(n, View());
      while names != {}
        invariant InRound(n, View(), [])
        invariant forall t :: t in gossip ==> t !in trustedSeeds && Dialable(n, t) && t !in names
        invariant forall i, j :: 0 <= i < j < |gossip| ==> gossip[i] != gossip[j]
        invariant forall t :: t !in trustedSeeds && Dialable(n, t) ==> t in gossip || t in names
        decreases |names|
      {
        var t :| t in names;
        names := names - {t};
        if t !in trustedSeeds {
          var ok := IsAvailable(t, n, []);
          SameInRound(n, View(), t);
          if ok {
            gossip := gossip + [t];
          }
        }
      }
      SortPermutes(gossip, LexLe);
      SameMembers(gossip, Sort(gossip, LexLe));
      LexIsTotalOrder();
      SortSorted(gossip, LexLe);
      SameDistinct(gossip, Sort(gossip, LexLe));
      gossip := Sort(gossip, LexLe);
    }

    /** Starts as many dials as there is room for, seeds first but leaving one slot for gossiped addresses. */
    method ReserveDialCandidates() returns (out: seq<Reservation>)
      requires SlotsOk(View())
      modifies this`known, this`targets, this`nextToken, this`pending, this`dialing, this`seedCursor, this`gossipCursor
      ensures var n, ts := old(View()), TargetsOf(out);
              && LegalRound(n, ts) && SlotsOk(View())
              && View() == DialAll(n, ts).(known := known, targets := targets) && known <= old(known)
              && (|ts| >= DialRoom(n) || (forall t :: (t in seedTargets || t !in trustedSeeds) && Dialable(n, t) ==> t in ts))
              && (DialRoom(n) > 1 && (exists t :: t !in trustedSeeds && Dialable(n, t)) ==>
                    exists t :: t in ts && t !in trustedSeeds)
              && (DialRoom(n) > 0 ==> OpensWith(n, trustedSeeds, seedTargets, old(seedCursor), old(gossipCursor), ts))
    {
      hide SlotsOk, InRound, Dialable, PendingOutbound, DialAll, LegalRound, TargetsOf, Opening, DialableOf;
      ghost var n := View();
      RoundStarts(n);
      out := [];
      NoTargets();
      var dials := CountOutbound();
      var room := MAX_PEERS - |peers| - |pending|;
      if room > MAX_PENDING_OUTBOUND - dials {
        room := MAX_PENDING_OUTBOUND - dials;
      }
      if room <= 0 {
        RoundEnds(n, View(), []);
        return;
      }
      var seeds := SeedCandidates(n);
      var gossip := GossipCandidates(n);
      DialableMembers(n, seedTargets);
      assert GossipOf(n, trustedSeeds, gossip);
      out := FillRound(seeds, gossip, room, n);
      RoundEnds(n, View(), TargetsOf(out));
    }

    method CountOutbound() returns (dials: nat)
      ensures dials == |PendingOutbound(pending)|
    {
      dials := 0;
      var tokens := pending.Keys;
      ghost var seen: set<nat> := {};
      while tokens != {}
        invariant tokens <= pending.Keys && dials == |seen| && seen !! tokens
        invariant forall k :: k in PendingOutbound(pending) <==> k in seen || (k in tokens && pending[k].target != "")
        decreases |tokens|
      {
        AnyToken(tokens);
        var k :| k in tokens;
        tokens := tokens - {k};
        if pending[k].target != "" {
          dials := dials + 1;
          seen := seen + {k};
        }
      }
      assert seen == PendingOutbound(pending);
    }

    /** The opening of a round. */
    method OpenRound(seeds: seq<string>, gossip: seq<string>, room: int, ghost n: Net) returns (out: seq<Reservation>)
      requires SlotsOk(n) && InRound(n, View(), []) && 0 < room == DialRoom(n)
      requires forall t :: t in gossip ==> Dialable(n, t)
      modifies this`known, this`targets, this`nextToken, this`pending, this`dialing, this`seedCursor, this`gossipCursor
      ensures InRound(n, View(), TargetsOf(out)) && |out| <= room
      ensures TargetsOf(out) == Opening(n, seeds, gossip, room, old(seedCursor), old(gossipCursor))
      ensures room > 1 && gossip != [] ==> exists t :: t in gossip && t in TargetsOf(out)
    {
      hide SlotsOk, InRound, Dialable, DialRoom, TargetsOf, RingPicks, Opening;
      out := [];
      NoTargets();
      OpeningCases(n, seeds, gossip, room, seedCursor, gossipCursor);
      if |seeds| > 0 && |gossip| > 0 && room > 1 {
        seedCursor, out := ReserveRotating(seeds, seedCursor, room - 1, room, out, n);
        ghost var first := out;
        gossipCursor, out := ReserveRotating(gossip, gossipCursor, 1, room, out, n);
        GossipServed(gossip, first, out, n);
      } else if |seeds| > 0 {
        seedCursor, out := ReserveRotating(seeds, seedCursor, room, room, out, n);
      } else {
        gossipCursor, out := ReserveRotating(gossip, gossipCursor, room, room, out, n);
        if gossip != [] {
          GossipServed(gossip, [], out, n);
        }
      }
    }

    /** Opens the round, then draws on both lists until the room is used up. */
    method FillRound(seeds: seq<string>, gossip: seq<string>, room: int, ghost n: Net) returns (out: seq<Reservation>)
      requires SlotsOk(n) && InRound(n, View(), []) && 0 < room == DialRoom(n)
      requires forall t :: t in seeds || t in gossip ==> Dialable(n, t)
      modifies this`known, this`targets, this`nextToken, this`pending, this`dialing, this`seedCursor, this`gossipCursor
      ensures InRound(n, View(), TargetsOf(out)) && |out| <= room
      ensures |out| >= room || (forall t :: t in seeds || t in gossip ==> t in TargetsOf(out))
      ensures room > 1 && gossip != [] ==> exists t :: t in gossip && t in TargetsOf(out)
      ensures Opening(n, seeds, gossip, room, old(seedCursor), old(gossipCursor)) <= TargetsOf(out)
    {
      hide SlotsOk, InRound, Dialable, DialRoom, TargetsOf, RingPicks, Opening;
      out := OpenRound(seeds, gossip, room, n);
      ghost var opening := out;
      if |out| < room {
        seedCursor, out := ReserveRotating(seeds, seedCursor, room - |out|, room, out, n);
      }
      ghost var middle := out;
      if |out| < room {
        gossipCursor, out := ReserveRotating(gossip, gossipCursor, room - |out|, room, out, n);
      }
      KeepTargets(opening, out);
      KeepTargets(middle, out);
    }
  }

  lemma {:induction false} OpeningCases(n: Net, seeds: seq<string>, gossip: seq<string>, room: int, seedCursor: nat, gossipCursor: nat)
    requires room > 0
    ensures seeds != [] && gossip != [] && room > 1 ==>
      var first := [] + RingPicks(n, seeds, seedCursor, [], Least(room - 1, room - 0));
      Opening(n, seeds, gossip, room, seedCursor, gossipCursor)
      == first + RingPicks(n, gossip, gossipCursor, first, Least(1, room - |first|))
    ensures seeds != [] && (gossip == [] || room <= 1) ==>
      Opening(n, seeds, gossip, room, seedCursor, gossipCursor) == [] + RingPicks(n, seeds, seedCursor, [], Least(room, room - 0))
    ensures seeds == [] ==>
      Opening(n, seeds, gossip, room, seedCursor, gossipCursor) == [] + RingPicks(n, gossip, gossipCursor, [], Least(room, room - 0))
  {
    hide RingPicks;
    var first := RingPicks(n, seeds, seedCursor, [], room - 1);
    assert [] + first == first;
  }

  /** The sorted list of dialable addresses that are not configured seeds. */
  ghost predicate GossipOf(n: Net, trusted: set<string>, gossip: seq<string>) {
    && Sorted(gossip, LexLe) && (forall i, j :: 0 <= i < j < |gossip| ==> gossip[i] != gossip[j])
    && (forall t :: t in gossip <==> t !in trusted && Dialable(n, t))
  }

  /** The round opens with seeds and gossiped addresses in the order of the code. */
  ghost predicate OpensWith(n: Net, trusted: set<string>, seedTargets: seq<string>, seedCursor: nat, gossipCursor: nat, ts: seq<string>) {
    exists gossip ::
      && GossipOf(n, trusted, gossip)
      && Opening(n, DialableOf(n, seedTargets), gossip, DialRoom(n), seedCursor, gossipCursor) <= ts
  }

  lemma {:induction false} NoTargets()
    ensures TargetsOf([]) == []
  {
  }

  /** How a round opens: seeds in ring order from their cursor, all but one slot of them when gossiped addresses wait too, then
      one gossiped address from its own cursor; gossiped addresses alone when no seed can be dialled. */
  ghost function Opening(n: Net, seeds: seq<string>, gossip: seq<string>, room: int, seedCursor: nat, gossipCursor: nat): seq<string> {
    if seeds != [] && gossip != [] && room > 1 then
      var first := RingPicks(n, seeds, seedCursor, [], room - 1);
      first + RingPicks(n, gossip, gossipCursor, first, Least(1, room - |first|))
    else if seeds != [] then RingPicks(n, seeds, seedCursor, [], room)
    else RingPicks(n, gossip, gossipCursor, [], room)
  }

  lemma {:induction false} AnyToken(s: set<nat>)
    requires s != {}
    ensures exists x: nat :: x in s
  {
    assert (forall x: nat :: x !in s) ==> s == {};
  }

  lemma {:induction false} ReleaseIdle(n: Net, r: Reservation)
    ensures !Holds(n, r) ==> ReleaseSlot(n, r) == n
  {
  }

  lemma {:induction false} RememberOnly(n: Net, target: string, dialable: string, key: string)
    ensures var m := Remember(n, target, dialable, key); m == n.(targets := m.targets, known := m.known)
  {
  }

  lemma {:induction false} SameInRound(n: Net, m: Net, t: string)
    requires InRound(n, m, [])
    ensures Dialable(m, t) <==> Dialable(n, t)
  {
    hide Dialable, LegalRound, DialAll;
  }

  lemma {:induction false} KnownInRound(n: Net, m: Net)
    requires InRound(n, m, [])
    ensures forall t :: Dialable(n, t) ==> t in m.known
  {
    hide LegalRound, DialAll;
  }

  lemma {:induction false} SameMembers(a: seq<string>, b: seq<string>)
    requires multiset(a) == multiset(b)
    ensures forall t :: t in a <==> t in b
  {
    forall t ensures t in a <==> t in b {
      assert t in a <==> t in multiset(a);
      assert t in b <==> t in multiset(b);
    }
  }

  lemma {:induction false} SameDistinct(a: seq<string>, b: seq<string>)
    requires multiset(a) == multiset(b) && (forall i, j :: 0 <= i < j < |a| ==> a[i] != a[j])
    ensures forall i, j :: 0 <= i < j < |b| ==> b[i] != b[j]
  {
    forall i, j | 0 <= i < j < |b| ensures b[i] != b[j] {
      RepeatFree(a, b[i]);
      OnceEach(b, i, j);
    }
  }

  lemma {:induction false} RoundEnds(n: Net, m: Net, ts: seq<string>)
    requires SlotsOk(n) && InRound(n, m, ts)
    ensures SlotsOk(m) && LegalRound(n, ts) && m == DialAll(n, ts).(known := m.known, targets := m.targets) && m.known <= n.known
  {
    hide LegalRound, DialAll, Dialable, CountsOk, PerIpOk, DialingMatches, TokensOk, PendingOutbound;
    DialAllKeeps(n, ts);
  }

  lemma {:induction false} KeepTargets(a: seq<Reservation>, b: seq<Reservation>)
    requires a <= b
    ensures forall t :: t in TargetsOf(a) ==> t in TargetsOf(b)
    ensures TargetsOf(a) <= TargetsOf(b)
  {
    assert forall i :: 0 <= i < |a| ==> TargetsOf(a)[i] == TargetsOf(b)[i];
    forall t | t in TargetsOf(a) ensures t in TargetsOf(b) {
      var i :| 0 <= i < |a| && TargetsOf(a)[i] == t;
      assert TargetsOf(b)[i] == t;
    }
  }

  /** A gossiped address got the slot kept for it. */
  lemma {:induction false} GossipServed(gossip: seq<string>, before: seq<Reservation>, after: seq<Reservation>, n: Net)
    requires before <= after && (forall i :: |before| <= i < |after| ==> after[i].target in gossip)
    requires forall t :: t in gossip ==> Dialable(n, t)
    requires |after| > |before| || forall j :: 0 <= j < |gossip| ==> Dialable(n, gossip[j]) ==> gossip[j] in TargetsOf(after)
    ensures gossip != [] ==> exists t :: t in gossip && t in TargetsOf(after)
  {
    hide Dialable;
    if |after| > |before| {
      var i := |before|;
      assert TargetsOf(after)[i] == after[i].target;
    } else if gossip != [] {
      assert gossip[0] in TargetsOf(after);
    }
  }

  /** The candidate at this offset was reserved, or could not be dialled to begin with. */
  ghost predicate Settled(n: Net, candidates: seq<string>, start: nat, o: nat, ts: seq<string>)
    requires |candidates| > 0
  {
    var t := candidates[(start + o) % |candidates|];
    Dialable(n, t) ==> t in ts
  }

  lemma {:induction false} RefusedInRound(n: Net, m: Net, ts: seq<string>, t: string)
    requires InRound(n, m, ts) && !Dialable(m, t)
    ensures Dialable(n, t) ==> t in ts
  {
    hide Dialable, LegalRound, DialAll;
  }

  lemma {:induction false} SettledGrows(n: Net, candidates: seq<string>, start: nat, before: seq<string>, after: seq<string>, offset: nat)
    requires |candidates| > 0 && before <= after
    requires forall o :: 0 <= o < offset ==> Settled(n, candidates, start, o, before)
    requires var t := candidates[(start + offset) % |candidates|]; Dialable(n, t) ==> t in after
    ensures forall o :: 0 <= o < offset + 1 ==> Settled(n, candidates, start, o, after)
  {
    hide Dialable;
    forall o | 0 <= o < offset + 1 ensures Settled(n, candidates, start, o, after) {
      assert o < offset ==> Settled(n, candidates, start, o, before);
    }
  }

  lemma {:induction false} AllSettled(n: Net, candidates: seq<string>, start: nat, ts: seq<string>)
    requires start < |candidates|
    requires forall o :: 0 <= o < |candidates| ==> Settled(n, candidates, start, o, ts)
    ensures forall j :: 0 <= j < |candidates| ==> Dialable(n, candidates[j]) ==> candidates[j] in ts
  {
    hide Dialable;
    forall j | 0 <= j < |candidates| ensures Dialable(n, candidates[j]) ==> candidates[j] in ts {
      var o := Rotation(|candidates|, start, j);
      assert Settled(n, candidates, start, o, ts);
    }
  }
}
