/** Every share and block a coordinator ever acknowledges traces back to work that was done for it (pool/pplns_coordinator.go). */
module PoolAudit {
  import opened Types
  import opened Payouts
  import opened ShareWindow
  import opened PoolDesk
  import opened PoolProtocol

  // ---- what a run shows about a submission ----

  /** Event `a` issued a job and event `b` submitted a nonce for it before it expired, on the tip the job builds on. */
  ghost predicate Opened(events: seq<Event>, a: int, b: int, token: nat) {
    && 0 <= a < b < |events| && events[a].Issue? && events[b].Submit?
    && events[b].token == token && events[b].id == events[a].id
    && events[b].now < events[a].job.expiresAt
    && events[b].tip == events[a].job.header.prevBlock
  }

  /** The job's header with the submitted nonce. */
  ghost function Solved(events: seq<Event>, a: int, b: int): Header
    requires 0 <= a < |events| && 0 <= b < |events| && events[a].Issue? && events[b].Submit?
  {
    events[a].job.header.(nonce := events[b].nonce)
  }

  /** The nonce's hash value meets the job's share target, and at event `c` the tip was still the job's. */
  ghost predicate Proved(h: Hashing, events: seq<Event>, a: int, b: int, c: int, token: nat) {
    && Opened(events, a, b, token) && b < c < |events|
    && events[c] == Verify(token, events[a].job.header.prevBlock)
    && h.pow(Solved(events, a, b)) <= events[a].job.shareTarget
  }

  /** The share says exactly what the job, the nonce and the clock of the submission say. */
  ghost predicate Describes(h: Hashing, events: seq<Event>, a: int, b: int, s: Share)
    requires 0 <= a < |events| && 0 <= b < |events| && events[a].Issue? && events[b].Submit?
  {
    var job := events[a].job;
    && s.address == job.address && s.jobId == events[a].id && s.nonce == events[b].nonce
    && s.shareHash == h.powHex(Solved(events, a, b)) && s.target == job.shareTarget
    && s.tipHash == h.tipHex(job.header.prevBlock) && s.tipHeight == job.height - 1 && s.acceptedAt == events[b].now
  }

  ghost predicate EarnedBy(h: Hashing, events: seq<Event>, a: int, b: int, c: int, token: nat, s: Share) {
    Proved(h, events, a, b, c, token) && Describes(h, events, a, b, s)
  }

  ghost predicate Backed(h: Hashing, events: seq<Event>, s: Share) {
    exists a, b, c, token :: EarnedBy(h, events, a, b, c, token, s)
  }

  /** The nonce's hash value meets the network target too, consensus took the block at event `d`, and the receipt names it. */
  ghost predicate Won(h: Hashing, events: seq<Event>, a: int, b: int, c: int, d: int, token: nat, k: ShareKey, blockId: string) {
    && Proved(h, events, a, b, c, token) && c < d < |events| && events[d] == Mine(token, true)
    && k == (events[a].id, events[b].nonce)
    && h.pow(Solved(events, a, b)) <= events[a].job.networkTarget
    && blockId == h.idHex(Solved(events, a, b))
  }

  ghost predicate BlockBacked(h: Hashing, events: seq<Event>, k: ShareKey, blockId: string) {
    exists a, b, c, d, token :: Won(h, events, a, b, c, d, token, k, blockId)
  }

  // ---- the same for jobs and calls under way ----

  ghost predicate SameJob(x: Job, y: Job) {
    x.(seen := {}) == y.(seen := {})
  }

  ghost predicate AnnouncedAt(events: seq<Event>, a: int, id: string, job: Job) {
    0 <= a < |events| && events[a].Issue? && events[a].id == id && SameJob(events[a].job, job)
  }

  ghost predicate Announced(events: seq<Event>, id: string, job: Job) {
    exists a :: AnnouncedAt(events, a, id, job)
  }

  ghost predicate Matches(events: seq<Event>, a: int, b: int, call: Call) {
    && AnnouncedAt(events, a, call.id, call.job)
    && 0 <= b < |events| && events[b].Submit? && events[b].nonce == call.nonce && events[b].now == call.now
  }

  ghost predicate Entered(events: seq<Event>, a: int, b: int, token: nat, call: Call) {
    Opened(events, a, b, token) && Matches(events, a, b, call)
  }

  ghost predicate Checked(h: Hashing, events: seq<Event>, a: int, b: int, c: int, token: nat, call: Call) {
    Proved(h, events, a, b, c, token) && Matches(events, a, b, call)
  }

  ghost predicate Taken(h: Hashing, events: seq<Event>, a: int, b: int, c: int, d: int, token: nat, call: Call) {
    Checked(h, events, a, b, c, token, call) && c < d < |events| && events[d] == Mine(token, true)
  }

  ghost predicate Traced(h: Hashing, events: seq<Event>, token: nat, call: Call) {
    match call.phase
    case Working => exists a, b :: Entered(events, a, b, token, call)
    case Dropping => true
    case Winning(_) =>
      h.pow(call.Header()) <= call.job.networkTarget && exists a, b, c, d :: Taken(h, events, a, b, c, d, token, call)
    case Mining(_) =>
      h.pow(call.Header()) <= call.job.networkTarget && exists a, b, c :: Checked(h, events, a, b, c, token, call)
    case _ => exists a, b, c :: Checked(h, events, a, b, c, token, call)
  }

  ghost predicate ReceiptTraced(h: Hashing, events: seq<Event>, k: ShareKey, r: Receipt) {
    r.status.BlockAccepted? ==> BlockBacked(h, events, k, r.status.blockId)
  }

  /** Everything acknowledged since the start is accounted for by the events so far. */
  ghost predicate Audited(h: Hashing, events: seq<Event>, p: Pool, start: nat) {
    && (forall id :: id in p.desk.jobs ==> Announced(events, id, p.desk.jobs[id]))
    && (forall t :: t in p.calls ==> Traced(h, events, t, p.calls[t]))
    && (forall i :: start <= i < |p.books.history| ==> Backed(h, events, p.books.history[i]))
    && (forall k :: k in p.desk.receipts ==> ReceiptTraced(h, events, k, p.desk.receipts[k]))
  }

  // ---- more events keep what fewer showed ----

  lemma {:induction false} AnnouncedLater(events: seq<Event>, later: seq<Event>, id: string, job: Job, x: Job)
    requires events <= later && Announced(events, id, job) && SameJob(job, x)
    ensures Announced(later, id, x)
  {
    var a :| AnnouncedAt(events, a, id, job);
    assert AnnouncedAt(later, a, id, x);
  }

  lemma {:induction false} BackedLater(h: Hashing, events: seq<Event>, later: seq<Event>, s: Share)
    requires events <= later && Backed(h, events, s)
    ensures Backed(h, later, s)
  {
    var a, b, c, token :| EarnedBy(h, events, a, b, c, token, s);
    assert EarnedBy(h, later, a, b, c, token, s);
  }

  lemma {:induction false} ReceiptLater(h: Hashing, events: seq<Event>, later: seq<Event>, k: ShareKey, r: Receipt)
    requires events <= later && ReceiptTraced(h, events, k, r)
    ensures ReceiptTraced(h, later, k, r)
  {
    if r.status.BlockAccepted? {
      var a, b, c, d, token :| Won(h, events, a, b, c, d, token, k, r.status.blockId);
      assert Won(h, later, a, b, c, d, token, k, r.status.blockId);
    }
  }

  lemma {:induction false} TracedLater(h: Hashing, events: seq<Event>, later: seq<Event>, token: nat, call: Call)
    requires events <= later && Traced(h, events, token, call)
    ensures Traced(h, later, token, call)
  {
    if call.phase.Working? {
      var a, b :| Entered(events, a, b, token, call);
      assert Entered(later, a, b, token, call);
    } else if call.phase.Winning? {
      var a, b, c, d :| Taken(h, events, a, b, c, d, token, call);
      assert Taken(h, later, a, b, c, d, token, call);
    } else if !call.phase.Dropping? {
      var a, b, c :| Checked(h, events, a, b, c, token, call);
      assert Checked(h, later, a, b, c, token, call);
    }
  }

  /** A step is accounted for when every job, call, share and receipt it leaves was there before or is. */
  lemma {:induction false} AuditStep(h: Hashing, events: seq<Event>, p: Pool, e: Event, q: Pool, start: nat)
    requires Audited(h, events, p, start)
    requires forall id :: id in q.desk.jobs ==>
      (id in p.desk.jobs && SameJob(p.desk.jobs[id], q.desk.jobs[id])) || Announced(events + [e], id, q.desk.jobs[id])
    requires forall t :: t in q.calls ==> (t in p.calls && q.calls[t] == p.calls[t]) || Traced(h, events + [e], t, q.calls[t])
    requires p.books.history <= q.books.history
    requires forall i :: |p.books.history| <= i < |q.books.history| ==> Backed(h, events + [e], q.books.history[i])
    requires forall k :: k in q.desk.receipts ==>
      (k in p.desk.receipts && q.desk.receipts[k] == p.desk.receipts[k]) || ReceiptTraced(h, events + [e], k, q.desk.receipts[k])
    ensures Audited(h, events + [e], q, start)
  {
    hide Announced, Traced, Backed, ReceiptTraced, SameJob;
    var later := events + [e];
    forall id | id in q.desk.jobs ensures Announced(later, id, q.desk.jobs[id]) {
      if id in p.desk.jobs && SameJob(p.desk.jobs[id], q.desk.jobs[id]) {
        AnnouncedLater(events, later, id, p.desk.jobs[id], q.desk.jobs[id]);
      }
    }
    forall t | t in q.calls ensures Traced(h, later, t, q.calls[t]) {
      if t in p.calls && q.calls[t] == p.calls[t] {
        TracedLater(h, events, later, t, p.calls[t]);
      }
    }
    forall i | start <= i < |q.books.history| ensures Backed(h, later, q.books.history[i]) {
      if i < |p.books.history| {
        BackedLater(h, events, later, p.books.history[i]);
      }
    }
    forall k | k in q.desk.receipts ensures ReceiptTraced(h, later, k, q.desk.receipts[k]) {
      if k in p.desk.receipts && q.desk.receipts[k] == p.desk.receipts[k] {
        ReceiptLater(h, events, later, k, p.desk.receipts[k]);
      }
    }
  }

  // ---- each section ----

  lemma {:induction false} SameJobSelf(x: Job)
    ensures SameJob(x, x)
  {
  }

  lemma {:induction false} IssueAudited(h: Hashing, cfg: Config, events: seq<Event>, p: Pool, now: int, id: string, job: Job, start: nat)
    requires Audited(h, events, p, start) && ValidConfig(cfg) && JobsListed(p.desk.jobs, p.desk.order)
    ensures Audited(h, events + [Issue(now, id, job)], OnIssue(cfg, p, now, id, job), start)
  {
    hide Audited, AddJob, SameJob, JobsListed;
    var e, q := Issue(now, id, job), OnIssue(cfg, p, now, id, job);
    AddJobFacts(p.desk, cfg, now, id, job);
    SameJobSelf(job);
    assert AnnouncedAt(events + [e], |events|, id, job);
    forall i | i in q.desk.jobs && i != id ensures SameJob(p.desk.jobs[i], q.desk.jobs[i]) {
      SameJobSelf(p.desk.jobs[i]);
    }
    AuditStep(h, events, p, e, q, start);
  }

  /** What a reservation shows about the job it was made on. */
  lemma {:induction false} ReservedFacts(d: Desk, cfg: Config, id: string, nonce: U64, now: int, tip: Hash)
    ensures var (e, o) := Begin(d, cfg, id, nonce, now, tip);
            && e.receipts == d.receipts
            && (forall i :: i in e.jobs ==> i in d.jobs && SameJob(d.jobs[i], e.jobs[i]))
            && (o.Reserved? ==>
                  id in d.jobs && SameJob(d.jobs[id], o.job) && now < o.job.expiresAt && tip == o.job.header.prevBlock)
  {
  }

  lemma {:induction false} SubmitAudited(h: Hashing, cfg: Config, events: seq<Event>, p: Pool, token: nat, id: string, nonce: U64,
                                         now: int, tip: Hash, start: nat)
    requires Audited(h, events, p, start)
    ensures Audited(h, events + [Submit(token, id, nonce, now, tip)], OnSubmit(cfg, p, token, id, nonce, now, tip), start)
  {
    hide Begin, SameJob, Announced, Traced, Backed, ReceiptTraced;
    var e, q := Submit(token, id, nonce, now, tip), OnSubmit(cfg, p, token, id, nonce, now, tip);
    ReservedFacts(p.desk, cfg, id, nonce, now, tip);
    var o := Begin(p.desk, cfg, id, nonce, now, tip).1;
    if o.Reserved? {
      EntersTraced(h, events, e, p.desk.jobs[id], Call(id, nonce, o.job, now, Working));
    }
    AuditStep(h, events, p, e, q, start);
  }

  lemma {:induction false} EntersTraced(h: Hashing, events: seq<Event>, e: Event, listed: Job, call: Call)
    requires e.Submit? && Announced(events, e.id, listed) && SameJob(listed, call.job) && call.phase == Working
    requires call.id == e.id && call.nonce == e.nonce && call.now == e.now
    requires e.now < call.job.expiresAt && e.tip == call.job.header.prevBlock
    ensures Traced(h, events + [e], e.token, call)
  {
    var a :| AnnouncedAt(events, a, e.id, listed);
    assert Entered(events + [e], a, |events|, e.token, call);
  }

  lemma {:induction false} VerifyAudited(h: Hashing, events: seq<Event>, p: Pool, token: nat, tip: Hash, start: nat)
    requires Audited(h, events, p, start) && token in p.calls && p.calls[token].phase.Working?
    ensures Audited(h, events + [Verify(token, tip)], OnVerify(h, p, token, tip), start)
  {
    hide Announced, Traced, Backed, ReceiptTraced, SameJob;
    var e, q, call := Verify(token, tip), OnVerify(h, p, token, tip), p.calls[token];
    forall id | id in q.desk.jobs ensures SameJob(p.desk.jobs[id], q.desk.jobs[id]) {
      SameJobSelf(p.desk.jobs[id]);
    }
    if token in q.calls {
      ReadyTraced(h, events, token, tip, call);
    }
    AuditStep(h, events, p, e, q, start);
  }

  lemma {:induction false} ReadyTraced(h: Hashing, events: seq<Event>, token: nat, tip: Hash, call: Call)
    requires Traced(h, events, token, call) && call.phase.Working? && h.pow(call.Header()) <= call.job.shareTarget
    ensures Traced(h, events + [Verify(token, tip)], token, call.(phase := Dropping))
    ensures tip == call.job.header.prevBlock ==> Traced(h, events + [Verify(token, tip)], token, call.(phase := Ready))
  {
    var a, b :| Entered(events, a, b, token, call);
    var later := events + [Verify(token, tip)];
    if tip == call.job.header.prevBlock {
      assert Checked(h, later, a, b, |events|, token, call.(phase := Ready));
    }
  }

  /** Moving a checked call to another phase that asks no more of it. */
  lemma {:induction false} MovedTraced(h: Hashing, events: seq<Event>, e: Event, token: nat, call: Call, phase: Phase)
    requires Traced(h, events, token, call)
    requires call.phase.Ready? || call.phase.Recording? || call.phase.Mining?
    requires phase.Releasing? || phase.Recording? || phase.Mining? || phase.Winning?
    requires phase.Mining? || phase.Winning? ==> h.pow(call.Header()) <= call.job.networkTarget
    requires phase.Winning? ==> e == Mine(token, true)
    ensures Traced(h, events + [e], token, call.(phase := phase))
  {
    var a, b, c :| Checked(h, events, a, b, c, token, call);
    var later, moved := events + [e], call.(phase := phase);
    assert Checked(h, later, a, b, c, token, moved);
    if phase.Winning? {
      assert Taken(h, later, a, b, c, |events|, token, moved);
    }
  }

  lemma {:induction false} DropAudited(h: Hashing, events: seq<Event>, p: Pool, token: nat, start: nat)
    requires Audited(h, events, p, start) && token in p.calls
    ensures Audited(h, events + [Drop(token)], OnDrop(p, token), start)
    ensures Audited(h, events + [GiveBack(token)], OnGiveBack(p, token), start)
  {
    hide Announced, Traced, Backed, ReceiptTraced;
    AuditStep(h, events, p, Drop(token), OnDrop(p, token), start);
    AuditStep(h, events, p, GiveBack(token), OnGiveBack(p, token), start);
  }

  lemma {:induction false} AppendAudited(c: Codec, h: Hashing, events: seq<Event>, p: Pool, token: nat, disk: Disk, closed: bool, start: nat)
    requires Audited(h, events, p, start) && token in p.calls && p.calls[token].phase.Ready? && p.books.window.windowShares >= 0
    ensures Audited(h, events + [Append(token, disk, closed)], OnAppend(c, h, p, token, disk, closed), start)
  {
    hide Announced, Traced, Backed, ReceiptTraced, SameJob, Accept, ShareOf;
    var e, q, call := Append(token, disk, closed), OnAppend(c, h, p, token, disk, closed), p.calls[token];
    forall id | id in q.desk.jobs ensures SameJob(p.desk.jobs[id], q.desk.jobs[id]) {
      SameJobSelf(p.desk.jobs[id]);
    }
    MovedTraced(h, events, e, token, call, Releasing);
    MovedTraced(h, events, e, token, call, Recording(p.books.window.next));
    StampedBacked(h, events, e, token, call, p.books.window);
    AuditStep(h, events, p, e, q, start);
  }

  lemma {:induction false} StampedBacked(h: Hashing, events: seq<Event>, e: Event, token: nat, call: Call, w: Window)
    requires Traced(h, events, token, call) && call.phase.Ready?
    ensures Backed(h, events + [e], Stamped(w, ShareOf(h, call)))
  {
    var a, b, c :| Checked(h, events, a, b, c, token, call);
    assert EarnedBy(h, events + [e], a, b, c, token, Stamped(w, ShareOf(h, call)));
  }

  lemma {:induction false} RecordAudited(cfg: Config, h: Hashing, events: seq<Event>, p: Pool, token: nat, start: nat)
    requires Audited(h, events, p, start) && token in p.calls && p.calls[token].phase.Recording?
    requires cfg.maxReceipts >= 1 && ReceiptsListed(p.desk.receipts, p.desk.receiptOrder) && |p.desk.receipts| <= cfg.maxReceipts
    ensures Audited(h, events + [Record(token)], OnRecord(cfg, h, p, token), start)
  {
    hide Announced, Traced, Backed, SameJob, StoreReceipt, ReceiptsListed, BlockBacked;
    var e, q, call := Record(token), OnRecord(cfg, h, p, token), p.calls[token];
    var r := ReceiptOf(h, call, call.phase.sequence, ShareAccepted);
    StoreReceiptFacts(p.desk, cfg.maxReceipts, call.Key(), r);
    forall id | id in q.desk.jobs ensures SameJob(p.desk.jobs[id], q.desk.jobs[id]) {
      SameJobSelf(p.desk.jobs[id]);
    }
    if h.pow(call.Header()) <= call.job.networkTarget {
      MovedTraced(h, events, e, token, call, Mining(call.phase.sequence));
    }
    AuditStep(h, events, p, e, q, start);
  }

  lemma {:induction false} MineAudited(h: Hashing, events: seq<Event>, p: Pool, token: nat, accepted: bool, start: nat)
    requires Audited(h, events, p, start) && token in p.calls && p.calls[token].phase.Mining?
    ensures Audited(h, events + [Mine(token, accepted)], OnMine(p, token, accepted), start)
  {
    hide Announced, Backed, ReceiptTraced, SameJob;
    var e, q, call := Mine(token, accepted), OnMine(p, token, accepted), p.calls[token];
    assert Traced(h, events, token, call) && h.pow(call.Header()) <= call.job.networkTarget;
    hide Traced;
    forall id | id in q.desk.jobs ensures SameJob(p.desk.jobs[id], q.desk.jobs[id]) {
      SameJobSelf(p.desk.jobs[id]);
    }
    if accepted {
      MovedTraced(h, events, e, token, call, Winning(call.phase.sequence));
    }
    AuditStep(h, events, p, e, q, start);
  }

  lemma {:induction false} FinishAudited(cfg: Config, h: Hashing, events: seq<Event>, p: Pool, token: nat, start: nat)
    requires Audited(h, events, p, start) && token in p.calls && p.calls[token].phase.Winning?
    requires cfg.maxReceipts >= 1 && ReceiptsListed(p.desk.receipts, p.desk.receiptOrder) && |p.desk.receipts| <= cfg.maxReceipts
    ensures Audited(h, events + [Finish(token)], OnFinish(cfg, h, p, token), start)
  {
    hide Announced, Traced, Backed, SameJob, StoreReceipt, ReceiptsListed, ReceiptTraced;
    var e, q, call := Finish(token), OnFinish(cfg, h, p, token), p.calls[token];
    var r := ReceiptOf(h, call, call.phase.sequence, BlockAccepted(h.idHex(call.Header())));
    StoreReceiptFacts(p.desk, cfg.maxReceipts, call.Key(), r);
    WinTraced(h, events, e, token, call, r);
    AuditStep(h, events, p, e, q, start);
  }

  lemma {:induction false} WinTraced(h: Hashing, events: seq<Event>, e: Event, token: nat, call: Call, r: Receipt)
    requires Traced(h, events, token, call) && call.phase.Winning? && r.status == BlockAccepted(h.idHex(call.Header()))
    ensures ReceiptTraced(h, events + [e], call.Key(), r)
  {
    var a, b, c, d :| Taken(h, events, a, b, c, d, token, call);
    assert Won(h, events + [e], a, b, c, d, token, call.Key(), r.status.blockId);
  }

  lemma {:induction false} IdleAudited(h: Hashing, events: seq<Event>, p: Pool, e: Event, start: nat)
    requires Audited(h, events, p, start)
    ensures Audited(h, events + [e], p, start)
  {
    hide Announced, Traced, Backed, ReceiptTraced, SameJob;
    forall id | id in p.desk.jobs ensures SameJob(p.desk.jobs[id], p.desk.jobs[id]) {
      SameJobSelf(p.desk.jobs[id]);
    }
    AuditStep(h, events, p, e, p, start);
  }

  lemma {:induction false} OpeningAudited(c: Codec, cfg: Config, h: Hashing, events: seq<Event>, p: Pool, e: Event, start: nat)
    requires ValidConfig(cfg) && Audited(h, events, p, start) && p.books.window.windowShares >= 0 && Enabled(p, e)
    requires JobsListed(p.desk.jobs, p.desk.order)
    requires e.Issue? || e.Submit? || e.Verify? || e.Drop? || e.GiveBack?
    ensures Audited(h, events + [e], Step(c, cfg, h, p, e), start)
  {
    hide JobsListed, Audited, OnIssue, OnSubmit, OnVerify, OnDrop, OnAppend, OnGiveBack, OnRecord, OnMine, OnFinish;
    match e
    case Issue(now, id, job) => IssueAudited(h, cfg, events, p, now, id, job, start);
    case Submit(token, id, nonce, now, tip) => SubmitAudited(h, cfg, events, p, token, id, nonce, now, tip, start);
    case Verify(token, tip) => VerifyAudited(h, events, p, token, tip, start);
    case Drop(token) => DropAudited(h, events, p, token, start);
    case GiveBack(token) => DropAudited(h, events, p, token, start);
  }

  lemma {:induction false} PostingAudited(c: Codec, cfg: Config, h: Hashing, events: seq<Event>, p: Pool, e: Event, start: nat)
    requires ValidConfig(cfg) && Audited(h, events, p, start) && p.books.window.windowShares >= 0 && Enabled(p, e)
    requires ReceiptsListed(p.desk.receipts, p.desk.receiptOrder) && |p.desk.receipts| <= cfg.maxReceipts
    requires e.Append? || e.Record? || e.Mine? || e.Finish?
    ensures Audited(h, events + [e], Step(c, cfg, h, p, e), start)
  {
    hide ReceiptsListed, Audited, OnIssue, OnSubmit, OnVerify, OnDrop, OnAppend, OnGiveBack, OnRecord, OnMine, OnFinish;
    match e
    case Append(token, disk, closed) => AppendAudited(c, h, events, p, token, disk, closed, start);
    case Record(token) => RecordAudited(cfg, h, events, p, token, start);
    case Mine(token, accepted) => MineAudited(h, events, p, token, accepted, start);
    case Finish(token) => FinishAudited(cfg, h, events, p, token, start);
  }

  lemma {:induction false} DisabledIdle(c: Codec, cfg: Config, h: Hashing, p: Pool, e: Event)
    requires p.books.window.windowShares >= 0 && !Enabled(p, e)
    ensures Step(c, cfg, h, p, e) == p
  {
    hide Enabled;
  }

  lemma {:induction false} StepAudited(c: Codec, cfg: Config, h: Hashing, events: seq<Event>, p: Pool, e: Event, start: nat)
    requires ValidConfig(cfg) && Inv(c, cfg, h, p) && Audited(h, events, p, start)
    ensures p.books.window.windowShares > 0
    ensures Audited(h, events + [e], Step(c, cfg, h, p, e), start)
  {
    RollingFacts(c, p.books);
    DeskFacts(c, cfg, h, p);
    hide *;
    if !Enabled(p, e) {
      DisabledIdle(c, cfg, h, p, e);
      IdleAudited(h, events, p, e, start);
    } else if e.Append? || e.Record? || e.Mine? || e.Finish? {
      PostingAudited(c, cfg, h, events, p, e, start);
    } else {
      OpeningAudited(c, cfg, h, events, p, e, start);
    }
  }

  lemma {:induction false} DeskFacts(c: Codec, cfg: Config, h: Hashing, p: Pool)
    requires Inv(c, cfg, h, p)
    ensures JobsListed(p.desk.jobs, p.desk.order) && ReceiptsListed(p.desk.receipts, p.desk.receiptOrder)
    ensures |p.desk.receipts| <= cfg.maxReceipts
  {
    hide JobsListed, ReceiptsListed, CallsOk, BooksOk, ReceiptsOk, DrawnIds;
  }

  // ---- whole runs ----

  lemma {:induction false} RunAudited(c: Codec, cfg: Config, h: Hashing, w: Window, events: seq<Event>)
    requires ValidConfig(cfg) && Usable(c, w)
    ensures Audited(h, events, Run(c, cfg, h, Start(w), events), |w.shares|)
  {
    hide Usable, Inv, Step;
    UsableSize(c, w);
    if events != [] {
      hide Audited;
      var init, last := events[..|events| - 1], events[|events| - 1];
      RunAudited(c, cfg, h, w, init);
      RunInv(c, cfg, h, w, init);
      StepAudited(c, cfg, h, init, Run(c, cfg, h, Start(w), init), last, |w.shares|);
      assert init + [last] == events;
    }
  }

  /** In every interleaving, a share accepted since the start was submitted for a job issued earlier in the run, before the job
      expired and on its tip, its hash value meets the job's share target, the tip had not moved when that was established, and
      the share records the job's address and target, that hash, that tip and the submission's time. */
  lemma {:induction false} SharesAreEarned(c: Codec, cfg: Config, h: Hashing, w: Window, events: seq<Event>, i: nat)
    returns (a: nat, b: nat, v: nat)
    requires ValidConfig(cfg) && Usable(c, w)
    requires |w.shares| <= i < |Run(c, cfg, h, Start(w), events).books.history|
    ensures var s := Run(c, cfg, h, Start(w), events).books.history[i];
            && a < b < v < |events| && events[a].Issue? && events[b].Submit? && events[v].Verify?
            && var job := events[a].job;
            && var header := job.header.(nonce := events[b].nonce);
            && events[b].id == events[a].id && events[v].token == events[b].token
            && events[b].now < job.expiresAt
            && events[b].tip == job.header.prevBlock == events[v].tip
            && h.pow(header) <= job.shareTarget
            && s == Share(s.sequence, job.address, events[a].id, events[b].nonce, h.powHex(header), job.shareTarget,
                          h.tipHex(job.header.prevBlock), job.height - 1, events[b].now)
  {
    hide Usable, Run, Inv;
    UsableSize(c, w);
    RunAudited(c, cfg, h, w, events);
    var s := Run(c, cfg, h, Start(w), events).books.history[i];
    assert Backed(h, events, s);
    var x, y, z, token :| EarnedBy(h, events, x, y, z, token, s);
    a, b, v := x, y, z;
  }

  /** And a receipt that reports a block names a header whose hash value meets the network target too and which consensus
      took. */
  lemma {:induction false} BlocksAreWon(c: Codec, cfg: Config, h: Hashing, w: Window, events: seq<Event>, k: ShareKey)
    returns (a: nat, b: nat, m: nat)
    requires ValidConfig(cfg) && Usable(c, w)
    requires k in Run(c, cfg, h, Start(w), events).desk.receipts
    requires Run(c, cfg, h, Start(w), events).desk.receipts[k].status.BlockAccepted?
    ensures && a < b < m < |events| && events[a].Issue? && events[b].Submit?
            && events[m] == Mine(events[b].token, true)
            && var job := events[a].job;
            && var header := job.header.(nonce := events[b].nonce);
            && events[b].id == events[a].id && k == (events[a].id, events[b].nonce)
            && h.pow(header) <= job.networkTarget && h.pow(header) <= job.shareTarget
            && Run(c, cfg, h, Start(w), events).desk.receipts[k].status == BlockAccepted(h.idHex(header))
  {
    hide Usable, Run, Inv;
    UsableSize(c, w);
    RunAudited(c, cfg, h, w, events);
    var r := Run(c, cfg, h, Start(w), events).desk.receipts[k];
    assert BlockBacked(h, events, k, r.status.blockId);
    var x, y, z, d, token :| Won(h, events, x, y, z, d, token, k, r.status.blockId);
    a, b, m := x, y, d;
  }

  // ---- calls under way ----

  /** In every run, a call past its check and not about to drop its job has a hash value within the share target, and one that is
      submitting a block or has had it taken is within the network target too. */
  lemma {:induction false} CallsAreChecked(c: Codec, cfg: Config, h: Hashing, w: Window, events: seq<Event>, token: nat)
    requires ValidConfig(cfg) && Usable(c, w) && token in Run(c, cfg, h, Start(w), events).calls
    ensures var call := Run(c, cfg, h, Start(w), events).calls[token];
            && (!call.phase.Working? && !call.phase.Dropping? ==> h.pow(call.job.header.(nonce := call.nonce)) <= call.job.shareTarget)
            && (call.phase.Mining? || call.phase.Winning? ==> h.pow(call.job.header.(nonce := call.nonce)) <= call.job.networkTarget)
  {
    hide Usable, Run, Inv;
    UsableSize(c, w);
    RunAudited(c, cfg, h, w, events);
    TracedIsChecked(h, events, token, Run(c, cfg, h, Start(w), events).calls[token]);
  }

  lemma {:induction false} TracedIsChecked(h: Hashing, events: seq<Event>, token: nat, call: Call)
    requires Traced(h, events, token, call)
    ensures !call.phase.Working? && !call.phase.Dropping? ==> h.pow(call.Header()) <= call.job.shareTarget
    ensures call.phase.Mining? || call.phase.Winning? ==> h.pow(call.Header()) <= call.job.networkTarget
  {
    if call.phase.Winning? {
      var a, b, c, d :| Taken(h, events, a, b, c, d, token, call);
    } else if !call.phase.Working? && !call.phase.Dropping? {
      var a, b, c :| Checked(h, events, a, b, c, token, call);
    }
  }

  /** And both checks decide exactly that: the first ends a call whose hash value is above the share target, and recording the
      share leads on to the block exactly within the network target. */
  lemma {:induction false} ChecksDecide(c: Codec, cfg: Config, h: Hashing, p: Pool, token: nat, tip: Hash)
    requires p.books.window.windowShares >= 0 && token in p.calls
    ensures var call := p.calls[token];
            var value := h.pow(call.job.header.(nonce := call.nonce));
            && (call.phase.Working? ==>
                  var q := Step(c, cfg, h, p, Verify(token, tip));
                  && (token in q.calls <==> value <= call.job.shareTarget)
                  && (token in q.calls ==> q.calls[token].phase == if tip == call.job.header.prevBlock then Ready else Dropping))
            && (call.phase.Recording? ==>
                  var q := Step(c, cfg, h, p, Record(token));
                  && (token in q.calls <==> value <= call.job.networkTarget)
                  && (token in q.calls ==> q.calls[token].phase == Mining(call.phase.sequence)))
  {
    hide StoreReceipt;
  }
}
