/** When a connected peer may lose its place, and what the address book holds (p2p/p2p.go). */
module PeerBook {
  import opened Types
  import opened Order
  import opened Slots
  import opened TieBreak

  // ---- displacement ----

  /** A second connection that may take the place of the first: from the same known address, both with tie keys, the newcomer's
      strictly smaller, and at most 15 seconds apart (times in nanoseconds). */
  ghost predicate Rival(holder: Peer, p: Peer) {
    && holder.remoteIp != "" && p.remoteIp == holder.remoteIp
    && holder.tieKey != "" && p.tieKey != "" && p.tieKey != holder.tieKey && LexLe(p.tieKey, holder.tieKey)
    && -15_000_000_000 <= p.connectedAt - holder.connectedAt <= 15_000_000_000
  }

  lemma {:induction false} ReplaceIff(holder: Peer, p: Peer)
    ensures CanReplace(holder, p) <==> Rival(holder, p)
  {
    hide LexLe;
    LexTotal(holder.tieKey, p.tieKey);
    if LexLe(holder.tieKey, p.tieKey) && LexLe(p.tieKey, holder.tieKey) {
      LexAntisymmetric(holder.tieKey, p.tieKey);
    }
  }

  /** Registering under a key that is taken changes its holder exactly when the reservation stands and the newcomer is a rival of
      the holder; under a free key the newcomer gets it exactly when the reservation stands. No other key is touched. */
  lemma {:induction false} HolderChangesIff(n: Net, r: Reservation, key: string, dialable: string, p: Peer)
    requires SlotsOk(n)
    ensures var m := Register(n, r, key, dialable, p);
            var held := r.token in n.pending && n.pending[r.token] == r;
            var newcomer := p.(outbound := r.target != "");
            && (forall k :: k != key ==> (k in m.peers <==> k in n.peers) && (k in n.peers ==> m.peers[k] == n.peers[k]))
            && (key in n.peers ==>
                  && key in m.peers
                  && (m.peers[key] != n.peers[key] <==> held && Rival(n.peers[key], p))
                  && (m.peers[key] != n.peers[key] ==> m.peers[key] == newcomer))
            && (key !in n.peers ==> (key in m.peers <==> held) && (held ==> m.peers[key] == newcomer))
  {
    hide SlotsOk, CanReplace, Rival, Register;
    RegisterHolder(n, r, key, dialable, p);
    if key in n.peers {
      var e := n.peers[key];
      ReplaceIff(e, Stored(r, p));
      RivalIgnoresSide(e, r, p);
      NotOwnRival(e);
    }
  }

  lemma {:induction false} RivalIgnoresSide(e: Peer, r: Reservation, p: Peer)
    ensures Rival(e, Stored(r, p)) <==> Rival(e, p)
  {
    hide LexLe;
  }

  lemma {:induction false} NotOwnRival(e: Peer)
    ensures !Rival(e, e)
  {
    hide LexLe;
  }

  /** The event neither tears the holder down nor registers a rival of it under its key. */
  ghost predicate Leaves(key: string, holder: Peer, e: Event) {
    match e
    case PeerReady(_, k, _, p) => k == key ==> !Rival(holder, p)
    case PeerGone(k, owner) => k == key ==> owner != holder
    case _ => true
  }

  lemma {:induction false} StepLeavesHolder(n: Net, key: string, holder: Peer, e: Event)
    requires SlotsOk(n) && Wins(n, key, holder) && Leaves(key, holder, e)
    ensures Wins(Step(n, e), key, holder)
  {
    hide SlotsOk, Register, Rival, ReserveInbound, LegalRound, DialAll, ReleaseSlot, Learn, Suppress;
    match e
    case PeerReady(r, k, dialable, p) => HolderChangesIff(n, r, k, dialable, p);
    case PeerGone(k, owner) =>
    case _ => OtherPeers(n, e);
  }

  /** A peer that holds a key keeps it through any events among which no rival of it registers and it is not torn down. */
  lemma {:induction false} HolderKeepsPlace(n: Net, key: string, holder: Peer, events: seq<Event>)
    requires SlotsOk(n) && key in n.peers && n.peers[key] == holder
    requires forall i :: 0 <= i < |events| ==> Leaves(key, holder, events[i])
    ensures key in Run(n, events).peers && Run(n, events).peers[key] == holder
  {
    hide SlotsOk, Step, Leaves;
    if events != [] {
      var init := events[..|events| - 1];
      HolderKeepsPlace(n, key, holder, init);
      RunKeeps(n, init);
      StepLeavesHolder(Run(n, init), key, holder, events[|events| - 1]);
    }
  }

  /** A connection gives up its key and its targets when it ends, and only if it is the one that holds the key. */
  lemma {:induction false} GoneMeans(n: Net, key: string, owner: Peer)
    ensures var m := Unregister(n, key, owner);
            && (forall k :: k in m.peers <==> k in n.peers && !(k == key && n.peers[k] == owner))
            && (forall k :: k in m.peers ==> m.peers[k] == n.peers[k])
            && (forall t :: t in m.targets <==>
                  t in n.targets && !(n.targets[t] == key && key in n.peers && n.peers[key] == owner))
            && (forall t :: t in m.targets ==> m.targets[t] == n.targets[t])
            && m.pending == n.pending && m.dialing == n.dialing && m.known == n.known && m.suppressed == n.suppressed
  {
  }

  // ---- admission of incoming handshakes ----

  /** An incoming handshake gets a slot exactly when fewer than 32 peers and handshakes are held in all, fewer than 28 of them
      incoming, fewer than 8 incoming handshakes under way, and fewer than 2 of those from its address. */
  lemma {:induction false} InboundAdmittedIff(n: Net, ip: string)
    ensures var inboundPeers, waiting := |set k | k in n.peers && !n.peers[k].outbound|, |set k | k in n.pending && n.pending[k].target == ""|;
            var fromIp := |set k | k in n.pending && n.pending[k].target == "" && n.pending[k].sourceIp == ip|;
            var room := |n.peers| + |n.pending| < 32 && inboundPeers + waiting < 28 && waiting < 8 && (ip != "" ==> fromIp < 2);
            ReserveInbound(n, ip) ==
              if room then n.(nextToken := n.nextToken + 1, pending := n.pending[n.nextToken + 1 := Reservation(n.nextToken + 1, "", ip)])
              else n
  {
    hide InboundPeers, PendingInbound, PendingFrom;
    CountedPeers(n.peers);
    CountedPending(n.pending, ip);
    RoomMeans(n, ip);
  }

  lemma {:induction false} RoomMeans(n: Net, ip: string)
    ensures InboundRoom(n, ip) <==>
      (&& |n.peers| + |n.pending| < 32 && |InboundPeers(n.peers)| + |PendingInbound(n.pending)| < 28
       && |PendingInbound(n.pending)| < 8 && (ip != "" ==> |PendingFrom(n.pending, ip)| < 2))
  {
    hide InboundPeers, PendingInbound, PendingFrom;
  }

  lemma {:induction false} CountedPeers(peers: map<string, Peer>)
    ensures InboundPeers(peers) == set k | k in peers && !peers[k].outbound
  {
  }

  lemma {:induction false} CountedPending(pending: map<nat, Reservation>, ip: string)
    ensures PendingInbound(pending) == set k | k in pending && pending[k].target == ""
    ensures PendingFrom(pending, ip) == set k | k in pending && pending[k].target == "" && pending[k].sourceIp == ip
  {
  }

  // ---- the address book ----

  /** At most 1000 addresses beyond the configured seeds are known, none empty or suppressed, and a target is remembered only for
      a connected peer. */
  ghost predicate BookOk(n: Net, seeds: set<string>) {
    && |n.known - seeds| <= 1000 && "" !in n.known && "" !in n.targets
    && (forall t :: t in n.suppressed ==> t !in n.known && t !in n.targets)
    && (forall t :: t in n.targets ==> n.targets[t] in n.peers)
  }

  lemma {:induction false} SubsetSize(a: set<string>, b: set<string>)
    requires a <= b
    ensures |a| <= |b|
    decreases |a|
  {
    if a != {} {
      var x :| x in a;
      SubsetSize(a - {x}, b - {x});
    }
  }

  lemma {:induction false} LearnSize(known: set<string>, t: string, seeds: set<string>)
    requires |known| < 1000
    ensures |known + {t} - seeds| <= 1000
  {
    SubsetSize(known + {t} - seeds, known + {t});
    if t in known {
      assert known + {t} == known;
    }
  }

  lemma {:induction false} TargetBook(n: Net, target: string, key: string, seeds: set<string>)
    requires BookOk(n, seeds) && key in n.peers
    ensures BookOk(RememberTarget(n, target, key), seeds)
  {
  }

  lemma {:induction false} KnownBook(n: Net, known: set<string>, seeds: set<string>, more: set<string>)
    requires BookOk(n, seeds) && |known - more| <= 1000 && "" !in known && (forall t :: t in known ==> t in n.known || t !in n.suppressed)
    ensures BookOk(n.(known := known), more)
  {
  }

  lemma {:induction false} RememberBook(n: Net, target: string, dialable: string, key: string, seeds: set<string>)
    requires BookOk(n, seeds) && key in n.peers
    ensures BookOk(Remember(n, target, dialable, key), seeds)
  {
    var a := RememberTarget(n, target, key);
    TargetBook(n, target, key, seeds);
    TargetBook(a, dialable, key, seeds);
    if dialable != "" && dialable !in n.suppressed && |n.known| < 1000 {
      LearnSize(n.known, dialable, seeds);
      KnownBook(RememberTarget(a, dialable, key), n.known + {dialable}, seeds, seeds);
    }
  }

  lemma {:induction false} PutBook(n: Net, key: string, p: Peer, seeds: set<string>)
    requires BookOk(n, seeds)
    ensures BookOk(n.(peers := n.peers[key := p]), seeds)
  {
  }

  lemma {:induction false} SlotBook(n: Net, m: Net, seeds: set<string>)
    requires BookOk(n, seeds) && m == n.(pending := m.pending, dialing := m.dialing, nextToken := m.nextToken)
    ensures BookOk(m, seeds)
  {
  }

  lemma {:induction false} RegisterBook(n: Net, r: Reservation, key: string, dialable: string, p: Peer, seeds: set<string>)
    requires BookOk(n, seeds)
    ensures BookOk(Register(n, r, key, dialable, p), seeds)
  {
    hide BookOk, CanReplace, RememberTarget;
    if Holds(n, r) {
      var m, q := ReleaseSlot(n, r), Stored(r, p);
      SlotBook(n, m, seeds);
      PutBook(m, key, q, seeds);
      RememberBook(m.(peers := m.peers[key := q]), r.target, dialable, key, seeds);
      if key in m.peers {
        RememberBook(m, r.target, dialable, key, seeds);
        RememberPeers(m, r.target, dialable, key);
        PutBook(Remember(m, r.target, dialable, key), key, q, seeds);
      }
    }
  }

  lemma {:induction false} UnregisterBook(n: Net, key: string, owner: Peer, seeds: set<string>)
    requires BookOk(n, seeds)
    ensures BookOk(Unregister(n, key, owner), seeds)
  {
  }

  lemma {:induction false} LearnBook(n: Net, t: string, seeds: set<string>)
    requires BookOk(n, seeds)
    ensures BookOk(Learn(n, t), seeds)
  {
    if |n.known| < 1000 {
      LearnSize(n.known, t, seeds);
    }
  }

  lemma {:induction false} ForgetBook(n: Net, t: string, seeds: set<string>)
    requires BookOk(n, seeds)
    ensures BookOk(Suppress(n, t), seeds) && BookOk(Tidy(n, t), seeds)
  {
    SubsetSize(n.known - {t} - seeds, n.known - seeds);
  }

  lemma {:induction false} SeedBook(n: Net, t: string, seeds: set<string>)
    requires BookOk(n, seeds)
    ensures BookOk(AddSeed(n, t), seeds + {t})
  {
    SubsetSize(n.known + {t} - (seeds + {t}), n.known - seeds);
    SubsetSize(n.known - (seeds + {t}), n.known - seeds);
    KnownBook(n, n.known, seeds, seeds + {t});
    if t != "" && t !in n.suppressed {
      KnownBook(n, n.known + {t}, seeds, seeds + {t});
    }
  }

  lemma {:induction false} StepBook(n: Net, e: Event, seeds: set<string>)
    requires SlotsOk(n) && BookOk(n, seeds) && !e.SeedConfigured?
    ensures BookOk(Step(n, e), seeds)
  {
    hide SlotsOk, BookOk, Register, LegalRound, Learn, Suppress, Tidy, Unregister, InboundRoom;
    match e
    case InboundArrives(ip) => SlotBook(n, ReserveInbound(n, ip), seeds);
    case DialRound(ts) =>
      if LegalRound(n, ts) {
        DialAllKeeps(n, ts);
        SlotBook(n, DialAll(n, ts), seeds);
      }
    case TargetChecked(t) => ForgetBook(n, t, seeds);
    case HandshakeEnds(r) => SlotBook(n, ReleaseSlot(n, r), seeds);
    case PeerReady(r, key, dialable, p) => RegisterBook(n, r, key, dialable, p, seeds);
    case PeerGone(key, owner) => UnregisterBook(n, key, owner, seeds);
    case AddressHeard(t) => LearnBook(n, t, seeds);
    case SelfFound(t) => ForgetBook(n, t, seeds);
  }

  /** The seeds configured during a run. */
  ghost function Seeds(events: seq<Event>): set<string> {
    if events == [] then {}
    else
      var last := events[|events| - 1];
      Seeds(events[..|events| - 1]) + (if last.SeedConfigured? then {last.target} else {})
  }

  /** In every run at most 1000 addresses are known beyond the configured seeds, a suppressed address is neither known nor a
      target, and every remembered target belongs to a connected peer. */
  lemma {:induction false} AddressBook(events: seq<Event>)
    ensures var n := Run(Start(), events);
            && |n.known - Seeds(events)| <= 1000 && "" !in n.known
            && (forall t :: t in n.suppressed ==> t !in n.known && t !in n.targets)
            && (forall t :: t in n.targets ==> n.targets[t] in n.peers)
  {
    hide Run, Seeds;
    BookRun(events);
  }

  lemma {:induction false} BookRun(events: seq<Event>)
    ensures BookOk(Run(Start(), events), Seeds(events))
  {
    if events != [] {
      hide SlotsOk, BookOk, Step;
      var init, last := events[..|events| - 1], events[|events| - 1];
      BookRun(init);
      StartOk();
      RunKeeps(Start(), init);
      AnyStepBook(Run(Start(), init), last, Seeds(init));
    }
  }

  lemma {:induction false} AnyStepBook(n: Net, e: Event, seeds: set<string>)
    requires SlotsOk(n) && BookOk(n, seeds)
    ensures BookOk(Step(n, e), seeds + (if e.SeedConfigured? then {e.target} else {}))
  {
    if e.SeedConfigured? {
      hide SlotsOk, BookOk, AddSeed;
      SeedBook(n, e.target, seeds);
    } else {
      hide SlotsOk, BookOk, Step;
      StepBook(n, e, seeds);
      assert seeds + {} == seeds;
    }
  }

  /** A round of dials starts only addresses that are known, not suppressed, not being dialled and not those of a connected peer. */
  lemma {:induction false} DialsAreNew(n: Net, ts: seq<string>, t: string)
    requires SlotsOk(n) && t in Step(n, DialRound(ts)).dialing && t !in n.dialing
    ensures t in n.known && t !in n.suppressed && !(t in n.targets && n.targets[t] in n.peers)
    ensures |ts| <= 4 && |n.peers| + |n.pending| + |ts| <= 32
  {
    hide SlotsOk, DialAll;
    if LegalRound(n, ts) {
      DialAllKeeps(n, ts);
      assert t in ts;
    }
  }

  /** The room for dials: what 32 peers and handshakes and 4 dials under way leave, whichever is less. */
  lemma {:induction false} DialRoomMeans(n: Net)
    ensures var slots, dials := 32 - |n.peers| - |n.pending|, 4 - |set k | k in n.pending && n.pending[k].target != ""|;
            DialRoom(n) == if dials < slots then dials else slots
  {
    assert PendingOutbound(n.pending) == set k | k in n.pending && n.pending[k].target != "";
  }

  /** An address heard of is learnt exactly when it is not empty, not suppressed and fewer than 1000 are known, a configured seed
      without that limit; one found to be the node's own is forgotten and suppressed. */
  lemma {:induction false} HeardMeans(n: Net, t: string)
    ensures forall a :: a in Learn(n, t).known <==> a in n.known || (a == t && t != "" && t !in n.suppressed && |n.known| < 1000)
    ensures Learn(n, t) == n.(known := Learn(n, t).known)
    ensures forall a :: a in AddSeed(n, t).known <==> a in n.known || (a == t && t != "" && t !in n.suppressed)
    ensures t != "" ==>
      && t in Suppress(n, t).suppressed && t !in Suppress(n, t).known && t !in Suppress(n, t).targets
      && (forall a :: a != t ==> (a in Suppress(n, t).known <==> a in n.known) && (a in Suppress(n, t).suppressed <==> a in n.suppressed))
      && (forall a :: a != t ==> (a in Suppress(n, t).targets <==> a in n.targets) && (a in n.targets ==> Suppress(n, t).targets[a] == n.targets[a]))
  {
  }

  /** A registration that finds its reservation, under a free key or from the holder's own address, records the dialled and the
      advertised address as targets of that key unless suppressed, and learns the advertised one while fewer than 1000 are known. */
  lemma {:induction false} RememberedMeans(n: Net, r: Reservation, key: string, dialable: string, p: Peer, t: string)
    requires SlotsOk(n)
    ensures var m := Register(n, r, key, dialable, p);
            var recorded := && r.token in n.pending && n.pending[r.token] == r
                            && (key in n.peers ==> p.remoteIp != "" && p.remoteIp == n.peers[key].remoteIp);
            var named := t != "" && t !in n.suppressed && (t == r.target || t == dialable);
            && (t in m.targets <==> t in n.targets || (recorded && named))
            && (t in m.targets ==> m.targets[t] == if recorded && named then key else n.targets[t])
            && (t in m.known <==> t in n.known || (recorded && t == dialable && t != "" && t !in n.suppressed && |n.known| < 1000))
  {
    hide SlotsOk, CanReplace, Remember;
    if Holds(n, r) {
      RegisterHasRoom(n, r);
      ReleaseOnly(n, r);
      hide ReleaseSlot;
      var m, q := ReleaseSlot(n, r), Stored(r, p);
      NamedMeans(m, r.target, dialable, key, t);
      NamedMeans(m.(peers := m.peers[key := q]), r.target, dialable, key, t);
    }
  }

  lemma {:induction false} ReleaseOnly(n: Net, r: Reservation)
    ensures var m := ReleaseSlot(n, r); m == n.(pending := m.pending, dialing := m.dialing)
  {
  }

  lemma {:induction false} TargetMeans(n: Net, target: string, key: string, t: string)
    ensures var m := RememberTarget(n, target, key);
            var named := t != "" && t !in n.suppressed && t == target;
            && m == n.(targets := m.targets)
            && (t in m.targets <==> t in n.targets || named)
            && (t in m.targets ==> m.targets[t] == if named then key else n.targets[t])
  {
  }

  lemma {:induction false} NamedMeans(n: Net, target: string, dialable: string, key: string, t: string)
    ensures var m := Remember(n, target, dialable, key);
            var named := t != "" && t !in n.suppressed && (t == target || t == dialable);
            && (t in m.targets <==> t in n.targets || named)
            && (t in m.targets ==> m.targets[t] == if named then key else n.targets[t])
            && (t in m.known <==> t in n.known || (t == dialable && t != "" && t !in n.suppressed && |n.known| < 1000))
  {
    hide RememberTarget;
    TargetMeans(n, target, key, t);
    TargetMeans(RememberTarget(n, target, key), dialable, key, t);
  }
}
