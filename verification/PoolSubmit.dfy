/** `PPLNSCoordinator.Submit` run by one goroutine, as the sequence of its locked sections (pool/pplns_coordinator.go). */
module PoolSubmit {
  import opened Types
  import opened Payouts
  import opened ShareWindow
  import opened PoolDesk
  import opened PoolProtocol

  /** Everything outside the coordinator that one call observes: the clock, the tip at its two looks, the disk,
      whether the window is closed and whether consensus takes the block. */
  datatype Outside = Outside(now: int, tip: Hash, tipAgain: Hash, disk: Disk, accepted: bool)

  /** The call's sections in program order; those its outcome skips are disabled and change nothing. */
  function Sections(id: string, nonce: U64, o: Outside, closed: bool): seq<Event> {
    [Submit(0, id, nonce, o.now, o.tip), Verify(0, o.tipAgain), Drop(0), Append(0, o.disk, closed),
     GiveBack(0), Record(0), Mine(0, o.accepted), Finish(0)]
  }

  ghost function Alone(desk: Desk, window: Window): Pool {
    Pool(desk, Ledgered(window, []), map[], {})
  }

  ghost predicate Quiet(p: Pool, events: seq<Event>) {
    p.calls == map[] && forall i :: 0 <= i < |events| ==> !events[i].Submit? && !events[i].Issue?
  }

  // ---- the answer of an undisturbed call ----

  /** Once the nonce is reserved. */
  ghost function AfterReserve(c: Codec, h: Hashing, call: Call, w: Window, closed: bool, o: Outside): Result<Receipt, PoolDesk.Refusal>
    requires w.windowShares >= 0
  {
    if h.pow(call.Header()) > call.job.shareTarget then Err(LowDifficulty)
    else if o.tipAgain != call.job.header.prevBlock then Err(StaleJob)
    else if Accept(c, o.disk, w, closed, ShareOf(h, call)).Err? then Err(WindowRefused)
    else AfterPost(h, call, w.next, o)
  }

  /** Once the share is in the window. */
  ghost function AfterPost(h: Hashing, call: Call, sequence: U64, o: Outside): Result<Receipt, PoolDesk.Refusal> {
    if h.pow(call.Header()) > call.job.networkTarget then Ok(ReceiptOf(h, call, sequence, ShareAccepted))
    else if !o.accepted then Err(BlockRejected)
    else Ok(ReceiptOf(h, call, sequence, BlockAccepted(h.idHex(call.Header()))))
  }

  ghost function Answer(c: Codec, cfg: Config, h: Hashing, d: Desk, w: Window, closed: bool, id: string, nonce: U64, o: Outside)
    : Result<Receipt, PoolDesk.Refusal>
    requires w.windowShares >= 0
  {
    match Begin(d, cfg, id, nonce, o.now, o.tip).1
    case Reply(r) => Ok(r)
    case Refused(e) => Err(e)
    case Reserved(job) => AfterReserve(c, h, Call(id, nonce, job, o.now, Working), w, closed, o)
  }

  /** No receipt is on file and the job is live, unexpired, on the current tip, with the nonce unused and room for one more. */
  ghost predicate Open(cfg: Config, d: Desk, id: string, nonce: U64, now: int, tip: Hash) {
    && (id, nonce) !in d.receipts && id in d.jobs
    && now < d.jobs[id].expiresAt && d.jobs[id].header.prevBlock == tip
    && nonce !in d.jobs[id].seen && |d.jobs[id].seen| < cfg.maxSubmissions
  }

  /** Open, and the hash value meets the share target while the tip has not moved. */
  ghost predicate Qualifies(cfg: Config, h: Hashing, d: Desk, id: string, nonce: U64, o: Outside) {
    && Open(cfg, d, id, nonce, o.now, o.tip)
    && h.pow(d.jobs[id].header.(nonce := nonce)) <= d.jobs[id].shareTarget
    && o.tipAgain == d.jobs[id].header.prevBlock
  }

  /** The share a qualifying nonce stands for. */
  ghost function Claim(h: Hashing, job: Job, id: string, nonce: U64, now: int): Share {
    Share(0, job.address, id, nonce, h.powHex(job.header.(nonce := nonce)), job.shareTarget, h.tipHex(job.header.prevBlock),
          job.height - 1, now)
  }

  /** What each answer means. A receipt on file is returned as it is. Otherwise each refusal has its one reason, and a new receipt
      is given exactly for a qualifying nonce whose share the window takes: a share receipt where the hash value misses the
      network target, a block receipt where it meets it and consensus takes the block. */
  lemma {:induction false} AnswerMeans(c: Codec, cfg: Config, h: Hashing, d: Desk, w: Window, closed: bool, id: string, nonce: U64, o: Outside)
    requires w.windowShares >= 0
    ensures (id, nonce) in d.receipts ==> Answer(c, cfg, h, d, w, closed, id, nonce, o) == Ok(d.receipts[(id, nonce)])
    ensures (id, nonce) !in d.receipts ==>
      var res := Answer(c, cfg, h, d, w, closed, id, nonce, o);
      && (res == Err(UnknownJob) <==> id !in d.jobs)
      && (id in d.jobs ==>
            var job := d.jobs[id];
            var header := job.header.(nonce := nonce);
            var taken := Accept(c, o.disk, w, closed, Claim(h, job, id, nonce, o.now)).Ok?;
            && (res == Err(ExpiredJob) <==> o.now >= job.expiresAt)
            && (res == Err(StaleJob) <==>
                  o.now < job.expiresAt
                  && (o.tip != job.header.prevBlock
                      || (Open(cfg, d, id, nonce, o.now, o.tip) && h.pow(header) <= job.shareTarget && o.tipAgain != job.header.prevBlock)))
            && (res == Err(DuplicateSubmission) <==>
                  o.now < job.expiresAt && o.tip == job.header.prevBlock && nonce in job.seen)
            && (res == Err(SubmissionLimit) <==>
                  o.now < job.expiresAt && o.tip == job.header.prevBlock && nonce !in job.seen && |job.seen| >= cfg.maxSubmissions)
            && (res == Err(LowDifficulty) <==> Open(cfg, d, id, nonce, o.now, o.tip) && h.pow(header) > job.shareTarget)
            && (res == Err(WindowRefused) <==> Qualifies(cfg, h, d, id, nonce, o) && !taken)
            && (res == Err(BlockRejected) <==>
                  Qualifies(cfg, h, d, id, nonce, o) && taken && h.pow(header) <= job.networkTarget && !o.accepted)
            && (res.Ok? <==> Qualifies(cfg, h, d, id, nonce, o) && taken && (h.pow(header) <= job.networkTarget ==> o.accepted))
            && (res.Ok? ==>
                  res.value == Receipt(if h.pow(header) <= job.networkTarget then BlockAccepted(h.idHex(header)) else ShareAccepted,
                                       h.powHex(header), w.next, job.height)))
  {
    hide Accept;
  }

  lemma {:induction false} QuietRun(c: Codec, cfg: Config, h: Hashing, p: Pool, done: seq<Event>, rest: seq<Event>)
    requires p.books.window.windowShares >= 0 && Quiet(Run(c, cfg, h, p, done), rest)
    ensures Run(c, cfg, h, p, done + rest) == Run(c, cfg, h, p, done)
  {
    hide OnIssue, OnSubmit, OnVerify, OnDrop, OnAppend, OnGiveBack, OnRecord, OnMine, OnFinish;
    if rest == [] {
      assert done + rest == done;
    } else {
      var init, last := rest[..|rest| - 1], rest[|rest| - 1];
      QuietRun(c, cfg, h, p, done, init);
      assert (done + rest)[..|done + rest| - 1] == done + init;
      assert (done + rest)[|done + rest| - 1] == last;
    }
  }

  lemma {:induction false} RunNext(c: Codec, cfg: Config, h: Hashing, p: Pool, events: seq<Event>, n: nat)
    requires p.books.window.windowShares >= 0 && n < |events|
    ensures Run(c, cfg, h, p, events[..n + 1]) == Step(c, cfg, h, Run(c, cfg, h, p, events[..n]), events[n])
  {
    hide Step;
    assert events[..n + 1][..n] == events[..n];
  }

  lemma {:induction false} RunEnds(c: Codec, cfg: Config, h: Hashing, p: Pool, events: seq<Event>, n: nat)
    requires p.books.window.windowShares >= 0 && 1 <= n <= |events|
    requires forall i :: 1 <= i < |events| ==> !events[i].Submit? && !events[i].Issue?
    requires Run(c, cfg, h, p, events[..n]).calls == map[]
    ensures Run(c, cfg, h, p, events) == Run(c, cfg, h, p, events[..n])
  {
    hide Step, Run;
    assert events == events[..n] + events[n..];
    QuietRun(c, cfg, h, p, events[..n], events[n..]);
  }

  /** An uninterrupted call is the run of its sections, and an acknowledgement is on file when it returns. */
  method SubmitShare(coordinator: PplnsCoordinator, window: PplnsWindow, c: Codec, cfg: Config, h: Hashing,
                     id: string, nonce: U64, o: Outside) returns (res: Result<Receipt, PoolDesk.Refusal>)
    requires window.state.windowShares >= 0
    modifies coordinator, window`state
    ensures var p := Run(c, cfg, h, Alone(old(coordinator.View()), old(window.state)), Sections(id, nonce, o, window.closed));
            coordinator.View() == p.desk && window.state == p.books.window && p.calls == map[]
    ensures res.Ok? ==> (id, nonce) in coordinator.receipts && coordinator.receipts[(id, nonce)] == res.value
    ensures res == Answer(c, cfg, h, old(coordinator.View()), old(window.state), window.closed, id, nonce, o)
  {
    hide Run, Step, AddJob, Begin, StoreReceipt, Win, Accept, DropJob, Release;
    ghost var start := Alone(coordinator.View(), window.state);
    ghost var es := Sections(id, nonce, o, window.closed);
    var first := coordinator.BeginSubmit(cfg, id, nonce, o.now, o.tip);
    FirstSection(c, cfg, h, start, id, nonce, o, window.closed);
    if first.Reply? {
      BeginReply(start.desk, cfg, id, nonce, o.now, o.tip);
      RunEnds(c, cfg, h, start, es, 1);
      return Ok(first.receipt);
    }
    if first.Refused? {
      RunEnds(c, cfg, h, start, es, 1);
      return Err(first.error);
    }
    res := Work(coordinator, window, c, cfg, h, Call(id, nonce, first.job, o.now, Working), o, start);
  }

  /** The part of the call that runs after the nonce is reserved. */
  method Work(coordinator: PplnsCoordinator, window: PplnsWindow, c: Codec, cfg: Config, h: Hashing, call: Call, o: Outside,
              ghost start: Pool) returns (res: Result<Receipt, PoolDesk.Refusal>)
    requires window.state.windowShares >= 0 && start.books.window.windowShares >= 0 && call.phase == Working
    requires Run(c, cfg, h, start, Sections(call.id, call.nonce, o, window.closed)[..1])
          == Pool(coordinator.View(), Ledgered(window.state, []), map[0 := call], {})
    modifies coordinator, window`state
    ensures var p := Run(c, cfg, h, start, Sections(call.id, call.nonce, o, window.closed));
            coordinator.View() == p.desk && window.state == p.books.window && p.calls == map[]
    ensures res.Ok? ==> call.Key() in coordinator.receipts && coordinator.receipts[call.Key()] == res.value
    ensures res == AfterReserve(c, h, call, old(window.state), window.closed, o)
  {
    hide Run, AddJob, Begin, StoreReceipt, Win, Accept, DropJob, Release;
    ghost var es := Sections(call.id, call.nonce, o, window.closed);
    ghost var p := Run(c, cfg, h, start, es[..1]);
    RunNext(c, cfg, h, start, es, 1);
    var value := h.pow(call.Header());
    if value > call.job.shareTarget {
      assert Ended(p, 0).calls == map[];
      RunEnds(c, cfg, h, start, es, 2);
      return Err(LowDifficulty);
    }
    RunNext(c, cfg, h, start, es, 2);
    if o.tipAgain != call.job.header.prevBlock {
      coordinator.DropStale(call.id, call.job.serial);
      p := Run(c, cfg, h, start, es[..3]);
      assert p.calls == map[];
      RunEnds(c, cfg, h, start, es, 3);
      return Err(StaleJob);
    }
    p := Moved(p, 0, Ready);
    assert Run(c, cfg, h, start, es[..3]) == p;
    hide Step;
    res := PostShare(coordinator, window, c, cfg, h, call.(phase := Ready), o, start);
  }

  /** Persisting the share and everything after it. */
  method PostShare(coordinator: PplnsCoordinator, window: PplnsWindow, c: Codec, cfg: Config, h: Hashing, call: Call, o: Outside,
                   ghost start: Pool) returns (res: Result<Receipt, PoolDesk.Refusal>)
    requires window.state.windowShares >= 0 && start.books.window.windowShares >= 0 && call.phase == Ready
    requires Run(c, cfg, h, start, Sections(call.id, call.nonce, o, window.closed)[..3])
          == Pool(coordinator.View(), Ledgered(window.state, []), map[0 := call], {})
    modifies coordinator, window`state
    ensures var p := Run(c, cfg, h, start, Sections(call.id, call.nonce, o, window.closed));
            coordinator.View() == p.desk && window.state == p.books.window && p.calls == map[]
    ensures res.Ok? ==> call.Key() in coordinator.receipts && coordinator.receipts[call.Key()] == res.value
    ensures res == if Accept(c, o.disk, old(window.state), window.closed, ShareOf(h, call)).Err? then Err(WindowRefused)
                   else AfterPost(h, call, old(window.state).next, o)
  {
    hide Run, AddJob, Begin, StoreReceipt, Win, Accept, DropJob, Release, LastN;
    ghost var es := Sections(call.id, call.nonce, o, window.closed);
    ghost var before := window.state;
    RunNext(c, cfg, h, start, es, 3);
    RunNext(c, cfg, h, start, es, 4);
    var posted := window.AcceptShare(c, o.disk, ShareOf(h, call));
    if posted.Err? {
      coordinator.ReleaseSubmission(call.id, call.job.serial, call.nonce);
      assert Run(c, cfg, h, start, es[..5]).calls == map[];
      RunEnds(c, cfg, h, start, es, 5);
      return Err(WindowRefused);
    }
    var sequence := posted.value.sequence;
    ghost var q := Run(c, cfg, h, start, es[..5]);
    assert q.desk == coordinator.View() && q.books.window == window.state;
    assert q.calls == map[0 := call.(phase := Recording(sequence))];
    hide Step;
    res := Acknowledge(coordinator, window, c, cfg, h, call.(phase := Recording(sequence)), o, start);
  }

  lemma {:induction false} StoredKey(d: Desk, max: nat, key: ShareKey, r: Receipt)
    ensures key in StoreReceipt(d, max, key, r).receipts && StoreReceipt(d, max, key, r).receipts[key] == r
    ensures key in Win(d, max, key, r).receipts && Win(d, max, key, r).receipts[key] == r
  {
  }

  /** Filing the receipt and, for a network-winning share, submitting the block. */
  method Acknowledge(coordinator: PplnsCoordinator, window: PplnsWindow, c: Codec, cfg: Config, h: Hashing, call: Call, o: Outside,
                     ghost start: Pool) returns (res: Result<Receipt, PoolDesk.Refusal>)
    requires start.books.window.windowShares >= 0 && call.phase.Recording?
    requires var p := Run(c, cfg, h, start, Sections(call.id, call.nonce, o, window.closed)[..5]);
             p.desk == coordinator.View() && p.books.window == window.state && p.calls == map[0 := call]
    modifies coordinator
    ensures var p := Run(c, cfg, h, start, Sections(call.id, call.nonce, o, window.closed));
            coordinator.View() == p.desk && window.state == p.books.window && p.calls == map[]
    ensures res.Ok? ==> call.Key() in coordinator.receipts && coordinator.receipts[call.Key()] == res.value
    ensures res == AfterPost(h, call, call.phase.sequence, o)
  {
    hide Run, AddJob, Begin, StoreReceipt, Win, Accept, DropJob, Release;
    ghost var es := Sections(call.id, call.nonce, o, window.closed);
    var result := ReceiptOf(h, call, call.phase.sequence, ShareAccepted);
    StoredKey(coordinator.View(), cfg.maxReceipts, call.Key(), result);
    coordinator.StoreReceiptLocked(cfg, call.Key(), result);
    RunNext(c, cfg, h, start, es, 5);
    if h.pow(call.Header()) > call.job.networkTarget {
      assert Run(c, cfg, h, start, es[..6]).calls == map[];
      RunEnds(c, cfg, h, start, es, 6);
      return Ok(result);
    }
    ghost var p := Run(c, cfg, h, start, es[..6]);
    assert p.calls == map[0 := call.(phase := Mining(call.phase.sequence))];
    hide Step;
    res := Announce(coordinator, window, c, cfg, h, call.(phase := Mining(call.phase.sequence)), o, result, start);
  }

  /** Submitting the block and filing its receipt. */
  method Announce(coordinator: PplnsCoordinator, window: PplnsWindow, c: Codec, cfg: Config, h: Hashing, call: Call, o: Outside,
                  share: Receipt, ghost start: Pool) returns (res: Result<Receipt, PoolDesk.Refusal>)
    requires start.books.window.windowShares >= 0 && call.phase.Mining?
    requires share == ReceiptOf(h, call, call.phase.sequence, ShareAccepted)
    requires var p := Run(c, cfg, h, start, Sections(call.id, call.nonce, o, window.closed)[..6]);
             p.desk == coordinator.View() && p.books.window == window.state && p.calls == map[0 := call]
    modifies coordinator
    ensures var p := Run(c, cfg, h, start, Sections(call.id, call.nonce, o, window.closed));
            coordinator.View() == p.desk && window.state == p.books.window && p.calls == map[]
    ensures res.Ok? ==> call.Key() in coordinator.receipts && coordinator.receipts[call.Key()] == res.value
    ensures res == if o.accepted then Ok(share.(status := BlockAccepted(h.idHex(call.Header())))) else Err(BlockRejected)
  {
    hide Run, AddJob, Begin, StoreReceipt, Win, Accept, DropJob, Release;
    ghost var es := Sections(call.id, call.nonce, o, window.closed);
    RunNext(c, cfg, h, start, es, 6);
    if !o.accepted {
      assert Run(c, cfg, h, start, es[..7]).calls == map[];
      RunEnds(c, cfg, h, start, es, 7);
      return Err(BlockRejected);
    }
    var result := share.(status := BlockAccepted(h.idHex(call.Header())));
    StoredKey(coordinator.View(), cfg.maxReceipts, call.Key(), result);
    coordinator.FinishWin(cfg, call.Key(), result);
    RunNext(c, cfg, h, start, es, 7);
    assert Run(c, cfg, h, start, es[..8]).calls == map[];
    RunEnds(c, cfg, h, start, es, 8);
    return Ok(result);
  }

  lemma {:induction false} FirstSection(c: Codec, cfg: Config, h: Hashing, start: Pool, id: string, nonce: U64, o: Outside, closed: bool)
    requires start.books.window.windowShares >= 0 && start.calls == map[]
    ensures var p := Run(c, cfg, h, start, Sections(id, nonce, o, closed)[..1]);
            var (desk, outcome) := Begin(start.desk, cfg, id, nonce, o.now, o.tip);
            && p == start.(desk := desk, calls := p.calls)
            && p.calls == if outcome.Reserved? then map[0 := Call(id, nonce, outcome.job, o.now, Working)] else map[]
  {
    hide Begin;
    var es := Sections(id, nonce, o, closed);
    RunNext(c, cfg, h, start, es, 0);
    assert es[..0] == [] && Run(c, cfg, h, start, []) == start;
    var (desk, outcome) := Begin(start.desk, cfg, id, nonce, o.now, o.tip);
    if outcome.Reserved? {
      var call := Call(id, nonce, outcome.job, o.now, Working);
      assert start.calls[0 := call] == map[0 := call];
    }
  }

  lemma {:induction false} BeginReply(d: Desk, cfg: Config, id: string, nonce: U64, now: int, tip: Hash)
    requires Begin(d, cfg, id, nonce, now, tip).1.Reply?
    ensures Begin(d, cfg, id, nonce, now, tip).0 == d && (id, nonce) in d.receipts
    ensures Begin(d, cfg, id, nonce, now, tip).1.receipt == d.receipts[(id, nonce)]
  {
  }

  // ---- what an undisturbed call leaves behind ----

  /** The desk and the window once the nonce is reserved and the call has run to its end. */
  ghost function Aftermath(c: Codec, cfg: Config, h: Hashing, d: Desk, w: Window, closed: bool, call: Call, o: Outside): (Desk, Window)
    requires w.windowShares >= 0
  {
    if h.pow(call.Header()) > call.job.shareTarget then (d, w)
    else if o.tipAgain != call.job.header.prevBlock then (DropJob(d, call.id, call.job.serial), w)
    else
      match Accept(c, o.disk, w, closed, ShareOf(h, call))
      case Err(_) => (Release(d, call.id, call.job.serial, call.nonce), w)
      case Ok(grown) =>
        var filed := StoreReceipt(d, cfg.maxReceipts, call.Key(), ReceiptOf(h, call, w.next, ShareAccepted));
        if h.pow(call.Header()) > call.job.networkTarget || !o.accepted then (filed, grown)
        else (Win(filed, cfg.maxReceipts, call.Key(), ReceiptOf(h, call, w.next, BlockAccepted(h.idHex(call.Header())))), grown)
  }

  lemma {:induction false} WorkRuns(c: Codec, cfg: Config, h: Hashing, start: Pool, d: Desk, w: Window, closed: bool, call: Call, o: Outside)
    requires start.books.window.windowShares >= 0 && w.windowShares >= 0 && call.phase == Working
    requires Run(c, cfg, h, start, Sections(call.id, call.nonce, o, closed)[..1]) == Pool(d, Ledgered(w, []), map[0 := call], {})
    ensures var p := Run(c, cfg, h, start, Sections(call.id, call.nonce, o, closed));
            (p.desk, p.books.window) == Aftermath(c, cfg, h, d, w, closed, call, o)
  {
    hide Run, AddJob, Begin, StoreReceipt, Win, Accept, DropJob, Release;
    var es := Sections(call.id, call.nonce, o, closed);
    var p := Run(c, cfg, h, start, es[..1]);
    RunNext(c, cfg, h, start, es, 1);
    if h.pow(call.Header()) > call.job.shareTarget {
      assert Ended(p, 0).calls == map[];
      RunEnds(c, cfg, h, start, es, 2);
    } else {
      RunNext(c, cfg, h, start, es, 2);
      if o.tipAgain != call.job.header.prevBlock {
        assert Run(c, cfg, h, start, es[..3]).calls == map[];
        RunEnds(c, cfg, h, start, es, 3);
      } else {
        assert Run(c, cfg, h, start, es[..3]) == Moved(p, 0, Ready);
        hide Step;
        PostRuns(c, cfg, h, start, d, w, closed, call.(phase := Ready), o);
      }
    }
  }

  lemma {:induction false} PostRuns(c: Codec, cfg: Config, h: Hashing, start: Pool, d: Desk, w: Window, closed: bool, call: Call, o: Outside)
    requires start.books.window.windowShares >= 0 && w.windowShares >= 0 && call.phase == Ready
    requires Run(c, cfg, h, start, Sections(call.id, call.nonce, o, closed)[..3]) == Pool(d, Ledgered(w, []), map[0 := call], {})
    requires h.pow(call.Header()) <= call.job.shareTarget && o.tipAgain == call.job.header.prevBlock
    ensures var p := Run(c, cfg, h, start, Sections(call.id, call.nonce, o, closed));
            (p.desk, p.books.window) == Aftermath(c, cfg, h, d, w, closed, call, o)
  {
    hide Run, AddJob, Begin, StoreReceipt, Win, Accept, DropJob, Release, LastN;
    var es := Sections(call.id, call.nonce, o, closed);
    RunNext(c, cfg, h, start, es, 3);
    RunNext(c, cfg, h, start, es, 4);
    var q := Run(c, cfg, h, start, es[..5]);
    if Accept(c, o.disk, w, closed, ShareOf(h, call)).Err? {
      assert q.calls == map[];
      RunEnds(c, cfg, h, start, es, 5);
    } else {
      assert q.desk == d && q.books.window == Accept(c, o.disk, w, closed, ShareOf(h, call)).value;
      assert q.calls == map[0 := call.(phase := Recording(w.next))];
      hide Step;
      FileRuns(c, cfg, h, start, d, q.books.window, closed, call.(phase := Recording(w.next)), o);
    }
  }

  lemma {:induction false} FileRuns(c: Codec, cfg: Config, h: Hashing, start: Pool, d: Desk, w: Window, closed: bool, call: Call, o: Outside)
    requires start.books.window.windowShares >= 0 && call.phase.Recording?
    requires var p := Run(c, cfg, h, start, Sections(call.id, call.nonce, o, closed)[..5]);
             p.desk == d && p.books.window == w && p.calls == map[0 := call]
    ensures var p := Run(c, cfg, h, start, Sections(call.id, call.nonce, o, closed));
            var filed := StoreReceipt(d, cfg.maxReceipts, call.Key(), ReceiptOf(h, call, call.phase.sequence, ShareAccepted));
            && p.books.window == w
            && p.desk == (if h.pow(call.Header()) > call.job.networkTarget || !o.accepted then filed
                          else Win(filed, cfg.maxReceipts, call.Key(),
                                   ReceiptOf(h, call, call.phase.sequence, BlockAccepted(h.idHex(call.Header())))))
  {
    hide Run, AddJob, Begin, StoreReceipt, Win, Accept, DropJob, Release;
    var es := Sections(call.id, call.nonce, o, closed);
    RunNext(c, cfg, h, start, es, 5);
    var p := Run(c, cfg, h, start, es[..6]);
    if h.pow(call.Header()) > call.job.networkTarget {
      assert p.calls == map[];
      RunEnds(c, cfg, h, start, es, 6);
    } else {
      assert p.calls == map[0 := call.(phase := Mining(call.phase.sequence))];
      hide Step;
      MineRuns(c, cfg, h, start, p.desk, w, closed, call.(phase := Mining(call.phase.sequence)), o);
    }
  }

  lemma {:induction false} MineRuns(c: Codec, cfg: Config, h: Hashing, start: Pool, d: Desk, w: Window, closed: bool, call: Call, o: Outside)
    requires start.books.window.windowShares >= 0 && call.phase.Mining?
    requires var p := Run(c, cfg, h, start, Sections(call.id, call.nonce, o, closed)[..6]);
             p.desk == d && p.books.window == w && p.calls == map[0 := call]
    ensures var p := Run(c, cfg, h, start, Sections(call.id, call.nonce, o, closed));
            && p.books.window == w
            && p.desk == (if !o.accepted then d
                          else Win(d, cfg.maxReceipts, call.Key(),
                                   ReceiptOf(h, call, call.phase.sequence, BlockAccepted(h.idHex(call.Header())))))
  {
    hide Run, AddJob, Begin, StoreReceipt, Win, Accept, DropJob, Release;
    var es := Sections(call.id, call.nonce, o, closed);
    RunNext(c, cfg, h, start, es, 6);
    if !o.accepted {
      assert Run(c, cfg, h, start, es[..7]).calls == map[];
      RunEnds(c, cfg, h, start, es, 7);
    } else {
      RunNext(c, cfg, h, start, es, 7);
      assert Run(c, cfg, h, start, es[..8]).calls == map[];
      RunEnds(c, cfg, h, start, es, 8);
    }
  }

  /** What each answer leaves behind. Expired and stale jobs are gone. A refused share gives its nonce back, while a nonce below the
      share target stays used. An accepted share uses its nonce, and one that wins the block ends all jobs. The window changes
      exactly when the share was taken. */
  lemma {:induction false} SubmitLeaves(c: Codec, cfg: Config, h: Hashing, d: Desk, w: Window, closed: bool, id: string, nonce: U64, o: Outside)
    requires w.windowShares >= 0 && (id, nonce) !in d.receipts
    ensures var p := Run(c, cfg, h, Alone(d, w), Sections(id, nonce, o, closed));
            var res := Answer(c, cfg, h, d, w, closed, id, nonce, o);
            && (res.Err? && res.error in {UnknownJob, DuplicateSubmission, SubmissionLimit, WindowRefused} ==> p.desk.jobs == d.jobs)
            && (res.Err? && res.error in {ExpiredJob, StaleJob} ==> p.desk.jobs == d.jobs - {id})
            && (res.Err? && res.error in {LowDifficulty, BlockRejected} ==> UsedUp(d, p.desk, id, nonce))
            && (res.Ok? && res.value.status.ShareAccepted? ==> UsedUp(d, p.desk, id, nonce))
            && (res.Ok? && res.value.status.BlockAccepted? ==> p.desk.jobs == map[] && p.desk.order == [])
            && (res.Err? && res.error != BlockRejected ==> p.books.window == w && p.desk.receipts == d.receipts)
            && (res.Ok? || res.error == BlockRejected ==>
                  id in d.jobs && Accept(c, o.disk, w, closed, Claim(h, d.jobs[id], id, nonce, o.now)) == Ok(p.books.window))
  {
    hide Run, AddJob, Begin, StoreReceipt, Accept;
    var start := Alone(d, w);
    FirstSection(c, cfg, h, start, id, nonce, o, closed);
    BeginMeans(d, cfg, id, nonce, o.now, o.tip);
    var (desk, outcome) := Begin(d, cfg, id, nonce, o.now, o.tip);
    if outcome.Reserved? {
      var call := Call(id, nonce, outcome.job, o.now, Working);
      WorkRuns(c, cfg, h, start, desk, w, closed, call, o);
      StoredOnly(desk, cfg.maxReceipts, (id, nonce), ReceiptOf(h, call, w.next, ShareAccepted));
    } else {
      RunEnds(c, cfg, h, start, Sections(id, nonce, o, closed), 1);
    }
  }

  /** The jobs are as before but for the one nonce now used. */
  ghost predicate UsedUp(d: Desk, e: Desk, id: string, nonce: U64) {
    id in d.jobs && e.jobs == d.jobs[id := d.jobs[id].(seen := d.jobs[id].seen + {nonce})]
  }

  lemma {:induction false} BeginMeans(d: Desk, cfg: Config, id: string, nonce: U64, now: int, tip: Hash)
    requires (id, nonce) !in d.receipts
    ensures var (e, out) := Begin(d, cfg, id, nonce, now, tip);
            && e == d.(jobs := e.jobs) && !out.Reply?
            && (out.Refused? ==>
                  && out.error in {UnknownJob, ExpiredJob, StaleJob, DuplicateSubmission, SubmissionLimit}
                  && e.jobs == if out.error in {ExpiredJob, StaleJob} then d.jobs - {id} else d.jobs)
            && (out.Reserved? ==>
                  && id in d.jobs && nonce !in d.jobs[id].seen
                  && out.job == d.jobs[id].(seen := d.jobs[id].seen + {nonce})
                  && e.jobs == d.jobs[id := out.job])
  {
  }

  lemma {:induction false} StoredOnly(d: Desk, max: nat, key: ShareKey, r: Receipt)
    ensures StoreReceipt(d, max, key, r).jobs == d.jobs && StoreReceipt(d, max, key, r).order == d.order
  {
  }
}
