/** Submissions running concurrently, interleaved at their lock boundaries (pool/pplns_coordinator.go). */
module PoolProtocol {
  import opened Types
  import opened Payouts
  import opened ShareWindow
  import opened PoolDesk

  /** Proof-of-work value and the textual forms of hashes, left abstract. */
  datatype Hashing = Hashing(pow: Header -> nat, powHex: Header -> string, tipHex: Hash -> string, idHex: Header -> string)

  /** Where a submission stands between two locked sections. */
  datatype Phase = Working | Dropping | Ready | Releasing
                 | Recording(sequence: U64) | Mining(sequence: U64) | Winning(sequence: U64)

  datatype Call = Call(id: string, nonce: U64, job: Job, now: int, phase: Phase)
  {
    function Key(): ShareKey {
      (id, nonce)
    }

    function Header(): Header {
      job.header.(nonce := nonce)
    }

    predicate Posted() {
      phase.Recording? || phase.Mining? || phase.Winning?
    }
  }

  function ShareOf(h: Hashing, call: Call): Share {
    Share(0, call.job.address, call.id, call.nonce, h.powHex(call.Header()), call.job.shareTarget,
          h.tipHex(call.job.header.prevBlock), call.job.height - 1, call.now)
  }

  function ReceiptOf(h: Hashing, call: Call, sequence: U64, status: Status): Receipt {
    Receipt(status, h.powHex(call.Header()), sequence, call.job.height)
  }

  /** The coordinator, its share window with everything ever accepted, the calls under way and the job ids drawn so far. */
  datatype Pool = Pool(desk: Desk, books: Ledgered, calls: map<nat, Call>, issued: set<string>)

  datatype Event =
    | Issue(now: int, id: string, job: Job)
    | Submit(token: nat, id: string, nonce: U64, now: int, tip: Hash)
    | Verify(token: nat, tip: Hash)
    | Drop(token: nat)
    | Append(token: nat, disk: Disk, closed: bool)
    | GiveBack(token: nat)
    | Record(token: nat)
    | Mine(token: nat, accepted: bool)
    | Finish(token: nat)

  /** Job ids are 128 random bits: a run never draws one twice. */
  predicate Enabled(p: Pool, e: Event) {
    match e
    case Issue(_, id, job) => id !in p.issued && job.seen == {}
    case Submit(token, _, _, _, _) => token !in p.calls
    case Verify(token, _) => token in p.calls && p.calls[token].phase.Working?
    case Drop(token) => token in p.calls && p.calls[token].phase.Dropping?
    case Append(token, _, _) => token in p.calls && p.calls[token].phase.Ready?
    case GiveBack(token) => token in p.calls && p.calls[token].phase.Releasing?
    case Record(token) => token in p.calls && p.calls[token].phase.Recording?
    case Mine(token, _) => token in p.calls && p.calls[token].phase.Mining?
    case Finish(token) => token in p.calls && p.calls[token].phase.Winning?
  }

  function Moved(p: Pool, token: nat, phase: Phase): Pool
    requires token in p.calls
  {
    p.(calls := p.calls[token := p.calls[token].(phase := phase)])
  }

  function Ended(p: Pool, token: nat): Pool {
    p.(calls := p.calls - {token})
  }

  function OnIssue(cfg: Config, p: Pool, now: int, id: string, job: Job): Pool {
    p.(desk := AddJob(p.desk, cfg, now, id, job), issued := p.issued + {id})
  }

  function OnSubmit(cfg: Config, p: Pool, token: nat, id: string, nonce: U64, now: int, tip: Hash): Pool {
    var (desk, outcome) := Begin(p.desk, cfg, id, nonce, now, tip);
    match outcome
    case Reserved(job) => p.(desk := desk, calls := p.calls[token := Call(id, nonce, job, now, Working)])
    case _ => p.(desk := desk)
  }

  function OnVerify(h: Hashing, p: Pool, token: nat, tip: Hash): Pool
    requires token in p.calls
  {
    var call := p.calls[token];
    if h.pow(call.Header()) > call.job.shareTarget then Ended(p, token)
    else if tip != call.job.header.prevBlock then Moved(p, token, Dropping)
    else Moved(p, token, Ready)
  }

  function OnDrop(p: Pool, token: nat): Pool
    requires token in p.calls
  {
    Ended(p, token).(desk := DropJob(p.desk, p.calls[token].id, p.calls[token].job.serial))
  }

  ghost function OnAppend(c: Codec, h: Hashing, p: Pool, token: nat, disk: Disk, closed: bool): Pool
    requires token in p.calls && p.books.window.windowShares >= 0
  {
    var share := ShareOf(h, p.calls[token]);
    match Accept(c, disk, p.books.window, closed, share)
    case Err(_) => Moved(p, token, Releasing)
    case Ok(_) =>
      Moved(p, token, Recording(p.books.window.next)).(books := Feed(c, p.books, Attempt(share, disk, closed)))
  }

  function OnGiveBack(p: Pool, token: nat): Pool
    requires token in p.calls
  {
    var call := p.calls[token];
    Ended(p, token).(desk := Release(p.desk, call.id, call.job.serial, call.nonce))
  }

  function OnRecord(cfg: Config, h: Hashing, p: Pool, token: nat): Pool
    requires token in p.calls && p.calls[token].phase.Recording?
  {
    var call := p.calls[token];
    var s := call.phase.sequence;
    var q := if h.pow(call.Header()) > call.job.networkTarget then Ended(p, token) else Moved(p, token, Mining(s));
    q.(desk := StoreReceipt(p.desk, cfg.maxReceipts, call.Key(), ReceiptOf(h, call, s, ShareAccepted)))
  }

  function OnMine(p: Pool, token: nat, accepted: bool): Pool
    requires token in p.calls && p.calls[token].phase.Mining?
  {
    if accepted then Moved(p, token, Winning(p.calls[token].phase.sequence)) else Ended(p, token)
  }

  function OnFinish(cfg: Config, h: Hashing, p: Pool, token: nat): Pool
    requires token in p.calls && p.calls[token].phase.Winning?
  {
    var call := p.calls[token];
    var r := ReceiptOf(h, call, call.phase.sequence, BlockAccepted(h.idHex(call.Header())));
    Ended(p, token).(desk := Win(p.desk, cfg.maxReceipts, call.Key(), r))
  }

  ghost function Step(c: Codec, cfg: Config, h: Hashing, p: Pool, e: Event): Pool
    requires p.books.window.windowShares >= 0
  {
    if !Enabled(p, e) then p
    else
      match e
      case Issue(now, id, job) => OnIssue(cfg, p, now, id, job)
      case Submit(token, id, nonce, now, tip) => OnSubmit(cfg, p, token, id, nonce, now, tip)
      case Verify(token, tip) => OnVerify(h, p, token, tip)
      case Drop(token) => OnDrop(p, token)
      case Append(token, disk, closed) => OnAppend(c, h, p, token, disk, closed)
      case GiveBack(token) => OnGiveBack(p, token)
      case Record(token) => OnRecord(cfg, h, p, token)
      case Mine(token, accepted) => OnMine(p, token, accepted)
      case Finish(token) => OnFinish(cfg, h, p, token)
  }

  // ---- the invariant ----

  ghost predicate DeskOk(cfg: Config, d: Desk) {
    JobsListed(d.jobs, d.order) && ReceiptsListed(d.receipts, d.receiptOrder) && Bounded(d, cfg)
  }

  /** The call's share was accepted with sequence number `s`. */
  ghost predicate Earned(h: Hashing, history: seq<Share>, call: Call, s: U64) {
    ShareOf(h, call).(sequence := s) in history
  }

  /** A receipt repeats what an accepted share says. */
  ghost predicate Vouched(history: seq<Share>, k: ShareKey, r: Receipt) {
    exists i :: 0 <= i < |history| && Tells(history[i], k, r)
  }

  ghost predicate Tells(s: Share, k: ShareKey, r: Receipt) {
    Key(s) == k && r.sequence == s.sequence && r.shareHash == s.shareHash && r.height == s.tipHeight + 1
  }

  ghost predicate CallOk(h: Hashing, p: Pool, call: Call) {
    && call.id in p.issued
    && (if call.Posted() then Earned(h, p.books.history, call, call.phase.sequence)
        else !HasKey(p.books.history, call.Key()))
    && (call.phase.Recording? ==> call.Key() !in p.desk.receipts)
  }

  /** A live job remembers the nonce. */
  ghost predicate Remembered(jobs: map<string, Job>, k: ShareKey) {
    k.0 in jobs ==> k.1 in jobs[k.0].seen
  }

  ghost predicate CallsOk(h: Hashing, p: Pool) {
    && (forall t :: t in p.calls ==> CallOk(h, p, p.calls[t]) && Remembered(p.desk.jobs, p.calls[t].Key()))
    && (forall t, u :: t in p.calls && u in p.calls && t != u ==> p.calls[t].Key() != p.calls[u].Key())
  }

  ghost predicate BooksOk(c: Codec, p: Pool) {
    && Rolling(c, p.books)
    && DistinctKeys(p.books.history)
    && (forall k :: HasKey(p.books.history, k) ==> k.0 in p.issued && Remembered(p.desk.jobs, k))
  }

  ghost predicate DrawnIds(p: Pool) {
    forall id :: id in p.desk.jobs ==> id in p.issued
  }

  ghost predicate ReceiptsOk(p: Pool) {
    forall k :: k in p.desk.receipts ==> Vouched(p.books.history, k, p.desk.receipts[k])
  }

  ghost predicate Inv(c: Codec, cfg: Config, h: Hashing, p: Pool) {
    DeskOk(cfg, p.desk) && CallsOk(h, p) && BooksOk(c, p) && DrawnIds(p) && ReceiptsOk(p)
  }

  // ---- steps that only touch the jobs ----

  /** Jobs may go, and those that stay forget nothing. */
  ghost predicate Forgetless(jobs: map<string, Job>, after: map<string, Job>) {
    forall id :: id in after ==> id in jobs && jobs[id].seen <= after[id].seen
  }

  /** Changing only the jobs, and forgetting nothing, keeps everything but the job bounds. */
  lemma {:induction false} JobsOnly(c: Codec, cfg: Config, h: Hashing, p: Pool, q: Pool)
    requires Inv(c, cfg, h, p) && DeskOk(cfg, q.desk) && DrawnIds(q)
    requires q.desk.receipts == p.desk.receipts && q.books == p.books && q.issued == p.issued
    requires Forgetless(p.desk.jobs, q.desk.jobs)
    requires forall t :: t in q.calls ==>
      t in p.calls && (q.calls[t] == p.calls[t] || (!p.calls[t].Posted() && !q.calls[t].Posted() && q.calls[t].(phase := Working) == p.calls[t].(phase := Working)))
    ensures Inv(c, cfg, h, q)
  {
    hide DeskOk, Rolling, DistinctKeys, HasKey, Vouched, Earned;
    forall t | t in q.calls ensures CallOk(h, q, q.calls[t]) && Remembered(q.desk.jobs, q.calls[t].Key()) {
      assert CallOk(h, p, p.calls[t]) && Remembered(p.desk.jobs, p.calls[t].Key());
      assert q.calls[t].Key() == p.calls[t].Key();
    }
    forall t, u | t in q.calls && u in q.calls && t != u ensures q.calls[t].Key() != q.calls[u].Key() {
      assert p.calls[t].Key() != p.calls[u].Key();
    }
    forall k | HasKey(q.books.history, k) ensures k.0 in q.issued && Remembered(q.desk.jobs, k) {
      assert Remembered(p.desk.jobs, k);
    }
  }

  lemma {:induction false} FewerJobs(cfg: Config, d: Desk, e: Desk)
    requires DeskOk(cfg, d)
    requires e.order == d.order && e.receipts == d.receipts && e.receiptOrder == d.receiptOrder
    requires forall id :: id in e.jobs ==> id in d.jobs && |e.jobs[id].seen| <= cfg.maxSubmissions
    ensures DeskOk(cfg, e)
  {
    hide ReceiptsListed;
    SubmapSize(e.jobs, d.jobs);
  }

  lemma {:induction false} SubmapSize<K, V>(a: map<K, V>, b: map<K, V>)
    requires forall k :: k in a ==> k in b
    ensures |a| <= |b|
    decreases |b|
  {
    SubsetSize(a.Keys, b.Keys);
    assert |a| == |a.Keys| && |b| == |b.Keys|;
  }

  lemma {:induction false} SubsetSize<K>(a: set<K>, b: set<K>)
    requires a <= b
    ensures |a| <= |b|
    decreases |a|
  {
    if a != {} {
      var x :| x in a;
      SubsetSize(a - {x}, b - {x});
    }
  }

  lemma {:induction false} IssueInv(c: Codec, cfg: Config, h: Hashing, p: Pool, now: int, id: string, job: Job)
    requires ValidConfig(cfg) && Inv(c, cfg, h, p) && id !in p.issued && job.seen == {}
    ensures Inv(c, cfg, h, OnIssue(cfg, p, now, id, job))
  {
    hide Rolling, DistinctKeys, HasKey, Vouched, Earned, AddJob, ReceiptsListed, JobsListed;
    AddJobFacts(p.desk, cfg, now, id, job);
    var q := OnIssue(cfg, p, now, id, job);
    assert DeskOk(cfg, q.desk);
    forall t | t in q.calls ensures CallOk(h, q, q.calls[t]) && Remembered(q.desk.jobs, q.calls[t].Key()) {
      assert CallOk(h, p, p.calls[t]) && Remembered(p.desk.jobs, p.calls[t].Key());
    }
    forall k | HasKey(q.books.history, k) ensures k.0 in q.issued && Remembered(q.desk.jobs, k) {
      assert Remembered(p.desk.jobs, k);
    }
  }

  lemma {:induction false} BeginJobs(d: Desk, cfg: Config, id: string, nonce: U64, now: int, tip: Hash)
    requires forall i :: i in d.jobs ==> |d.jobs[i].seen| <= cfg.maxSubmissions
    ensures var (e, o) := Begin(d, cfg, id, nonce, now, tip);
            && e == d.(jobs := e.jobs) && Forgetless(d.jobs, e.jobs)
            && (forall i :: i in e.jobs ==> i in d.jobs && |e.jobs[i].seen| <= cfg.maxSubmissions)
            && (o.Reserved? ==> id in d.jobs && nonce !in d.jobs[id].seen && id in e.jobs && nonce in e.jobs[id].seen)
  {
    var (e, o) := Begin(d, cfg, id, nonce, now, tip);
    if o.Reserved? {
      var seen := d.jobs[id].seen;
      assert |seen + {nonce}| == |seen| + 1;
    }
  }

  lemma {:induction false} BeginFacts(d: Desk, cfg: Config, id: string, nonce: U64, now: int, tip: Hash)
    requires DeskOk(cfg, d)
    ensures var (e, o) := Begin(d, cfg, id, nonce, now, tip);
            && DeskOk(cfg, e) && Forgetless(d.jobs, e.jobs) && e.receipts == d.receipts
            && (o.Reserved? ==> id in d.jobs && nonce !in d.jobs[id].seen && id in e.jobs && nonce in e.jobs[id].seen)
  {
    hide JobsListed, ReceiptsListed, Begin, Forgetless;
    BeginJobs(d, cfg, id, nonce, now, tip);
    var (e, o) := Begin(d, cfg, id, nonce, now, tip);
    FewerJobs(cfg, d, e);
  }

  lemma {:induction false} SubmitInv(c: Codec, cfg: Config, h: Hashing, p: Pool, token: nat, id: string, nonce: U64, now: int, tip: Hash)
    requires Inv(c, cfg, h, p) && token !in p.calls
    ensures Inv(c, cfg, h, OnSubmit(cfg, p, token, id, nonce, now, tip))
  {
    hide Rolling, DistinctKeys, HasKey, Vouched, Earned, Begin, DeskOk;
    BeginFacts(p.desk, cfg, id, nonce, now, tip);
    var (desk, outcome) := Begin(p.desk, cfg, id, nonce, now, tip);
    var r := p.(desk := desk);
    JobsOnly(c, cfg, h, p, r);
    if outcome.Reserved? {
      var call := Call(id, nonce, outcome.job, now, Working);
      NewCall(c, cfg, h, p, r, token, call);
    }
  }

  lemma {:induction false} NewCall(c: Codec, cfg: Config, h: Hashing, p: Pool, r: Pool, token: nat, call: Call)
    requires Inv(c, cfg, h, p) && Inv(c, cfg, h, r) && token !in r.calls && call.phase == Working
    requires r.calls == p.calls && r.books == p.books && r.issued == p.issued
    requires call.id in p.desk.jobs && call.nonce !in p.desk.jobs[call.id].seen && Remembered(r.desk.jobs, call.Key())
    ensures Inv(c, cfg, h, r.(calls := r.calls[token := call]))
  {
    hide Rolling, DistinctKeys, HasKey, Vouched, Earned, DeskOk;
    var q := r.(calls := r.calls[token := call]);
    assert !Remembered(p.desk.jobs, call.Key());
    assert !HasKey(p.books.history, call.Key());
    assert CallOk(h, q, call);
    forall t | t in q.calls && t != token
      ensures CallOk(h, q, q.calls[t]) && Remembered(q.desk.jobs, q.calls[t].Key()) && q.calls[t].Key() != call.Key() {
      assert CallOk(h, r, r.calls[t]) && Remembered(p.desk.jobs, p.calls[t].Key());
    }
  }

  lemma {:induction false} VerifyInv(c: Codec, cfg: Config, h: Hashing, p: Pool, token: nat, tip: Hash)
    requires Inv(c, cfg, h, p) && token in p.calls && p.calls[token].phase.Working?
    ensures Inv(c, cfg, h, OnVerify(h, p, token, tip))
  {
    hide Rolling, DistinctKeys, HasKey, Vouched, Earned, DeskOk;
    JobsOnly(c, cfg, h, p, OnVerify(h, p, token, tip));
  }

  lemma {:induction false} DropInv(c: Codec, cfg: Config, h: Hashing, p: Pool, token: nat)
    requires Inv(c, cfg, h, p) && token in p.calls
    ensures Inv(c, cfg, h, OnDrop(p, token))
  {
    hide Rolling, DistinctKeys, HasKey, Vouched, Earned;
    var q := OnDrop(p, token);
    FewerJobs(cfg, p.desk, q.desk);
    hide DeskOk;
    JobsOnly(c, cfg, h, p, q);
  }

  // ---- appending to the window ----

  lemma {:induction false} AppendInv(c: Codec, cfg: Config, h: Hashing, p: Pool, token: nat, disk: Disk, closed: bool)
    requires Inv(c, cfg, h, p) && token in p.calls && p.calls[token].phase.Ready?
    ensures Inv(c, cfg, h, OnAppend(c, h, p, token, disk, closed))
  {
    hide Rolling, DistinctKeys, HasKey, Vouched, Earned, DeskOk, Accept;
    var share := ShareOf(h, p.calls[token]);
    RollingFacts(c, p.books);
    if Accept(c, disk, p.books.window, closed, share).Err? {
      JobsOnly(c, cfg, h, p, OnAppend(c, h, p, token, disk, closed));
    } else {
      FeedRolling(c, p.books, Attempt(share, disk, closed));
      Appending(c, cfg, h, p, token, OnAppend(c, h, p, token, disk, closed));
    }
  }

  lemma {:induction false} RollingFacts(c: Codec, l: Ledgered)
    requires Rolling(c, l)
    ensures l.window.windowShares > 0
  {
    hide ValidState, LastN;
  }

  lemma {:induction false} Grown(history: seq<Share>, s: Share, k: ShareKey)
    requires DistinctKeys(history) && !HasKey(history, Key(s))
    ensures DistinctKeys(history + [s])
    ensures HasKey(history + [s], k) <==> HasKey(history, k) || k == Key(s)
  {
    var all := history + [s];
    assert all[|history|] == s;
    forall i, j | 0 <= i < j < |all| ensures Key(all[i]) != Key(all[j]) {
      assert Key(all[i]) == Key(history[i]);
    }
    if HasKey(history, k) {
      var i :| 0 <= i < |history| && Key(history[i]) == k;
      assert Key(all[i]) == k;
    }
  }

  lemma {:induction false} Appending(c: Codec, cfg: Config, h: Hashing, p: Pool, token: nat, q: Pool)
    requires Inv(c, cfg, h, p) && token in p.calls && !p.calls[token].Posted() && Rolling(c, q.books)
    requires q.desk == p.desk && q.issued == p.issued
    requires q.books.history == p.books.history + [ShareOf(h, p.calls[token]).(sequence := p.books.window.next)]
    requires q.calls == p.calls[token := p.calls[token].(phase := Recording(p.books.window.next))]
    ensures Inv(c, cfg, h, q)
  {
    hide Rolling, DistinctKeys, HasKey, DeskOk;
    var call := p.calls[token];
    var share := ShareOf(h, call).(sequence := p.books.window.next);
    var before, after := p.books.history, q.books.history;
    assert CallOk(h, p, call) && Key(share) == call.Key();
    forall k ensures HasKey(after, k) <==> HasKey(before, k) || k == call.Key() {
      Grown(before, share, k);
    }
    Grown(before, share, call.Key());
    forall k | k in q.desk.receipts ensures Vouched(after, k, q.desk.receipts[k]) && HasKey(before, k) {
      var i :| 0 <= i < |before| && Tells(before[i], k, p.desk.receipts[k]);
      KeyAt(before, i);
      assert after[i] == before[i];
    }
    forall t | t in q.calls ensures CallOk(h, q, q.calls[t]) && Remembered(q.desk.jobs, q.calls[t].Key()) {
      assert CallOk(h, p, p.calls[t]) && Remembered(p.desk.jobs, p.calls[t].Key());
      assert t != token ==> p.calls[t].Key() != call.Key();
    }
  }

  lemma {:induction false} KeyAt(shares: seq<Share>, i: nat)
    requires i < |shares|
    ensures HasKey(shares, Key(shares[i]))
  {
  }

  // ---- giving a nonce back ----

  lemma {:induction false} GiveBackInv(c: Codec, cfg: Config, h: Hashing, p: Pool, token: nat)
    requires Inv(c, cfg, h, p) && token in p.calls && !p.calls[token].Posted()
    ensures Inv(c, cfg, h, OnGiveBack(p, token))
  {
    hide Rolling, DistinctKeys, HasKey, Vouched, Earned, ReceiptsListed;
    var call, q := p.calls[token], OnGiveBack(p, token);
    assert CallOk(h, p, call);
    forall id | id in q.desk.jobs ensures id in p.desk.jobs && |q.desk.jobs[id].seen| <= cfg.maxSubmissions {
      SubsetSize(q.desk.jobs[id].seen, p.desk.jobs[id].seen);
    }
    FewerJobs(cfg, p.desk, q.desk);
    hide DeskOk;
    forall k | Remembered(p.desk.jobs, k) && k != call.Key() ensures Remembered(q.desk.jobs, k) {
    }
    forall t | t in q.calls ensures CallOk(h, q, q.calls[t]) && Remembered(q.desk.jobs, q.calls[t].Key()) {
      assert CallOk(h, p, p.calls[t]) && Remembered(p.desk.jobs, p.calls[t].Key());
    }
    forall k | HasKey(q.books.history, k) ensures k.0 in q.issued && Remembered(q.desk.jobs, k) {
      assert Remembered(p.desk.jobs, k);
    }
  }

  // ---- receipts ----

  lemma {:induction false} EarnedVouched(h: Hashing, history: seq<Share>, call: Call, s: U64, status: Status)
    requires Earned(h, history, call, s)
    ensures Vouched(history, call.Key(), ReceiptOf(h, call, s, status))
  {
    var i :| 0 <= i < |history| && history[i] == ShareOf(h, call).(sequence := s);
    assert Tells(history[i], call.Key(), ReceiptOf(h, call, s, status));
  }

  /** Storing a call's receipt, keeping the jobs or clearing them, and moving or ending the call. */
  lemma {:induction false} Stored(c: Codec, cfg: Config, h: Hashing, p: Pool, q: Pool, token: nat, r: Receipt)
    requires Inv(c, cfg, h, p) && DeskOk(cfg, q.desk) && DrawnIds(q)
    requires token in p.calls && q.books == p.books && q.issued == p.issued
    requires Vouched(p.books.history, p.calls[token].Key(), r)
    requires Forgetless(p.desk.jobs, q.desk.jobs)
    requires forall k :: k in q.desk.receipts ==>
      if k == p.calls[token].Key() then q.desk.receipts[k] == r else k in p.desk.receipts && q.desk.receipts[k] == p.desk.receipts[k]
    requires forall t :: t in q.calls ==> t in p.calls && (t != token ==> q.calls[t] == p.calls[t])
    requires token in q.calls ==>
      q.calls[token].phase.Mining? && p.calls[token].Posted() && q.calls[token] == p.calls[token].(phase := Mining(p.calls[token].phase.sequence))
    ensures Inv(c, cfg, h, q)
  {
    hide DeskOk, Rolling, DistinctKeys, HasKey, Vouched;
    forall t | t in q.calls ensures CallOk(h, q, q.calls[t]) && Remembered(q.desk.jobs, q.calls[t].Key()) {
      assert CallOk(h, p, p.calls[t]) && Remembered(p.desk.jobs, p.calls[t].Key());
      assert t != token ==> p.calls[t].Key() != p.calls[token].Key();
    }
    forall t, u | t in q.calls && u in q.calls && t != u ensures q.calls[t].Key() != q.calls[u].Key() {
      assert p.calls[t].Key() != p.calls[u].Key();
    }
    forall k | HasKey(q.books.history, k) ensures k.0 in q.issued && Remembered(q.desk.jobs, k) {
      assert Remembered(p.desk.jobs, k);
    }
  }

  lemma {:induction false} RecordInv(c: Codec, cfg: Config, h: Hashing, p: Pool, token: nat)
    requires ValidConfig(cfg) && Inv(c, cfg, h, p) && token in p.calls && p.calls[token].phase.Recording?
    ensures Inv(c, cfg, h, OnRecord(cfg, h, p, token))
  {
    hide Rolling, DistinctKeys, HasKey, Vouched, Earned, StoreReceipt, ReceiptsListed;
    var call, q := p.calls[token], OnRecord(cfg, h, p, token);
    var r := ReceiptOf(h, call, call.phase.sequence, ShareAccepted);
    assert CallOk(h, p, call);
    StoreReceiptFacts(p.desk, cfg.maxReceipts, call.Key(), r);
    EarnedVouched(h, p.books.history, call, call.phase.sequence, ShareAccepted);
    assert DeskOk(cfg, q.desk);
    hide DeskOk;
    Stored(c, cfg, h, p, q, token, r);
  }

  lemma {:induction false} FinishInv(c: Codec, cfg: Config, h: Hashing, p: Pool, token: nat)
    requires ValidConfig(cfg) && Inv(c, cfg, h, p) && token in p.calls && p.calls[token].phase.Winning?
    ensures Inv(c, cfg, h, OnFinish(cfg, h, p, token))
  {
    hide Rolling, DistinctKeys, HasKey, Vouched, Earned, StoreReceipt, ReceiptsListed;
    var call, q := p.calls[token], OnFinish(cfg, h, p, token);
    var status := BlockAccepted(h.idHex(call.Header()));
    var r := ReceiptOf(h, call, call.phase.sequence, status);
    assert CallOk(h, p, call);
    StoreReceiptFacts(p.desk, cfg.maxReceipts, call.Key(), r);
    EarnedVouched(h, p.books.history, call, call.phase.sequence, status);
    assert DeskOk(cfg, q.desk);
    hide DeskOk;
    Stored(c, cfg, h, p, q, token, r);
  }

  lemma {:induction false} MineInv(c: Codec, cfg: Config, h: Hashing, p: Pool, token: nat, accepted: bool)
    requires Inv(c, cfg, h, p) && token in p.calls && p.calls[token].phase.Mining?
    ensures Inv(c, cfg, h, OnMine(p, token, accepted))
  {
    hide DeskOk, Rolling, DistinctKeys, HasKey, Vouched;
    var q := OnMine(p, token, accepted);
    forall t | t in q.calls ensures CallOk(h, q, q.calls[t]) && Remembered(q.desk.jobs, q.calls[t].Key()) {
      assert CallOk(h, p, p.calls[t]) && Remembered(p.desk.jobs, p.calls[t].Key());
    }
    forall t, u | t in q.calls && u in q.calls && t != u ensures q.calls[t].Key() != q.calls[u].Key() {
      assert p.calls[t].Key() != p.calls[u].Key();
    }
  }

  lemma {:induction false} StepInv(c: Codec, cfg: Config, h: Hashing, p: Pool, e: Event)
    requires ValidConfig(cfg) && Inv(c, cfg, h, p)
    ensures p.books.window.windowShares > 0
    ensures Inv(c, cfg, h, Step(c, cfg, h, p, e))
  {
    RollingFacts(c, p.books);
    hide Inv, OnIssue, OnSubmit, OnVerify, OnDrop, OnAppend, OnGiveBack, OnRecord, OnMine, OnFinish;
    if Enabled(p, e) {
      match e
      case Issue(now, id, job) => IssueInv(c, cfg, h, p, now, id, job);
      case Submit(token, id, nonce, now, tip) => SubmitInv(c, cfg, h, p, token, id, nonce, now, tip);
      case Verify(token, tip) => VerifyInv(c, cfg, h, p, token, tip);
      case Drop(token) => DropInv(c, cfg, h, p, token);
      case Append(token, disk, closed) => AppendInv(c, cfg, h, p, token, disk, closed);
      case GiveBack(token) => GiveBackInv(c, cfg, h, p, token);
      case Record(token) => RecordInv(c, cfg, h, p, token);
      case Mine(token, accepted) => MineInv(c, cfg, h, p, token, accepted);
      case Finish(token) => FinishInv(c, cfg, h, p, token);
    }
  }

  // ---- whole runs ----

  function JobIds(shares: seq<Share>): set<string> {
    set i | 0 <= i < |shares| :: shares[i].jobId
  }

  /** A coordinator started on a window, new or read back from disk: no jobs, no receipts, no calls. */
  function Start(w: Window): Pool {
    Pool(Desk(map[], [], map[], []), Restored(w), map[], JobIds(w.shares))
  }

  ghost function Run(c: Codec, cfg: Config, h: Hashing, p: Pool, events: seq<Event>): (q: Pool)
    requires p.books.window.windowShares >= 0
    ensures q.books.window.windowShares == p.books.window.windowShares
  {
    if events == [] then p
    else
      var before := Run(c, cfg, h, p, events[..|events| - 1]);
      StepWindow(c, cfg, h, before, events[|events| - 1]);
      Step(c, cfg, h, before, events[|events| - 1])
  }

  lemma {:induction false} StepWindow(c: Codec, cfg: Config, h: Hashing, p: Pool, e: Event)
    requires p.books.window.windowShares >= 0
    ensures Step(c, cfg, h, p, e).books.window.windowShares == p.books.window.windowShares
    ensures p.books.history <= Step(c, cfg, h, p, e).books.history
  {
    hide AddJob, Begin, ValidState, StoreReceipt, LastN, HasKey, ValidShare, ShareOf, DropJob, Release;
  }

  lemma {:induction false} StartInv(c: Codec, cfg: Config, h: Hashing, w: Window)
    requires Usable(c, w)
    ensures Inv(c, cfg, h, Start(w))
  {
    hide Rolling, Usable, DistinctKeys, HasKey;
    WindowIsLastN(c, w, []);
    UsableKeys(c, w);
    forall k | HasKey(w.shares, k) ensures k.0 in JobIds(w.shares) {
      KeyDrawn(w.shares, k);
    }
  }

  lemma {:induction false} UsableKeys(c: Codec, w: Window)
    requires Usable(c, w)
    ensures DistinctKeys(w.shares)
  {
    hide SharesValid, DistinctKeys, Contiguous, Addresses, NextAfter;
  }

  lemma {:induction false} KeyDrawn(shares: seq<Share>, k: ShareKey)
    requires HasKey(shares, k)
    ensures k.0 in JobIds(shares)
  {
  }

  /** Every interleaving of submissions keeps the invariant, whatever window the coordinator started on. */
  lemma {:induction false} RunInv(c: Codec, cfg: Config, h: Hashing, w: Window, events: seq<Event>)
    requires ValidConfig(cfg) && Usable(c, w)
    ensures Inv(c, cfg, h, Run(c, cfg, h, Start(w), events))
  {
    hide Usable;
    if events == [] {
      StartInv(c, cfg, h, w);
    } else {
      hide Inv, Step;
      UsableSize(c, w);
      RunInv(c, cfg, h, w, events[..|events| - 1]);
      StepInv(c, cfg, h, Run(c, cfg, h, Start(w), events[..|events| - 1]), events[|events| - 1]);
    }
  }

  lemma {:induction false} UsableSize(c: Codec, w: Window)
    requires Usable(c, w)
    ensures w.windowShares > 0
  {
    hide ValidState;
  }

  /** The protocol's promises in plain terms: no (job, nonce) is ever accepted twice, the window is the last N accepted
      shares without gaps, and jobs, nonces per job and receipts stay within their limits. */
  lemma {:induction false} PoolSafety(c: Codec, cfg: Config, h: Hashing, w: Window, events: seq<Event>)
    requires ValidConfig(cfg) && Usable(c, w)
    ensures var p := Run(c, cfg, h, Start(w), events);
            && DistinctKeys(p.books.history)
            && p.books.window.shares == LastN(p.books.history, w.windowShares)
            && w.shares <= p.books.history && Contiguous(p.books.history) && p.books.window.next == NextAfter(p.books.history)
            && JobsListed(p.desk.jobs, p.desk.order)
            && |p.desk.jobs| <= cfg.maxJobs && |p.desk.receipts| <= cfg.maxReceipts
            && (forall id :: id in p.desk.jobs ==> |p.desk.jobs[id].seen| <= cfg.maxSubmissions)
  {
    hide Step, DistinctKeys, LastN, ValidState, JobsListed, CallsOk, ReceiptsOk, Contiguous, NextAfter;
    RunInv(c, cfg, h, w, events);
    HistoryGrows(c, cfg, h, Start(w), events, 0);
    assert events[..0] == [];
  }

  lemma {:induction false} HistoryGrows(c: Codec, cfg: Config, h: Hashing, p: Pool, events: seq<Event>, n: nat)
    requires p.books.window.windowShares >= 0 && n <= |events|
    ensures Run(c, cfg, h, p, events[..n]).books.history <= Run(c, cfg, h, p, events).books.history
  {
    hide Step;
    if n == |events| {
      assert events[..n] == events;
    } else {
      var init := events[..|events| - 1];
      HistoryGrows(c, cfg, h, p, init, n);
      assert init[..n] == events[..n];
      StepWindow(c, cfg, h, Run(c, cfg, h, p, init), events[|events| - 1]);
    }
  }

  lemma {:induction false} OneSequencePerKey(a: seq<Share>, b: seq<Share>, k: ShareKey, r: Receipt, s: Receipt)
    requires DistinctKeys(b) && a <= b && Vouched(a, k, r) && Vouched(b, k, s)
    ensures r.sequence == s.sequence && r.shareHash == s.shareHash && r.height == s.height
  {
    var i :| 0 <= i < |a| && Tells(a[i], k, r);
    var j :| 0 <= j < |b| && Tells(b[j], k, s);
    assert b[i] == a[i] && Key(b[i]) == Key(b[j]);
  }

  /** A receipt seen at two moments of a run carries the same sequence, hash and height, even if it was evicted and
      stored again in between. */
  lemma {:induction false} ReceiptsAgree(c: Codec, cfg: Config, h: Hashing, w: Window, events: seq<Event>, n: nat, k: ShareKey)
    requires ValidConfig(cfg) && Usable(c, w) && n <= |events|
    requires k in Run(c, cfg, h, Start(w), events[..n]).desk.receipts
    requires k in Run(c, cfg, h, Start(w), events).desk.receipts
    ensures var r := Run(c, cfg, h, Start(w), events[..n]).desk.receipts[k];
            var s := Run(c, cfg, h, Start(w), events).desk.receipts[k];
            r.sequence == s.sequence && r.shareHash == s.shareHash && r.height == s.height
  {
    hide Run, DistinctKeys, Vouched, DeskOk, CallsOk, Rolling, HasKey;
    var p := Start(w);
    RunInv(c, cfg, h, w, events[..n]);
    RunInv(c, cfg, h, w, events);
    HistoryGrows(c, cfg, h, p, events, n);
    var x, y := Run(c, cfg, h, p, events[..n]), Run(c, cfg, h, p, events);
    OneSequencePerKey(x.books.history, y.books.history, k, x.desk.receipts[k], y.desk.receipts[k]);
  }

  lemma {:induction false} ReceiptsUntouched(c: Codec, cfg: Config, h: Hashing, p: Pool, e: Event)
    requires p.books.window.windowShares >= 0 && !e.Record? && !e.Finish?
    ensures Step(c, cfg, h, p, e).desk.receipts == p.desk.receipts
  {
    hide Accept, ShareOf, Prune, EvictUntil, Feed;
  }

  /** While a receipt is retained its status only moves from share to block. */
  lemma {:induction false} StatusOnlyAdvances(c: Codec, cfg: Config, h: Hashing, p: Pool, e: Event, k: ShareKey)
    requires ValidConfig(cfg) && Inv(c, cfg, h, p) && p.books.window.windowShares >= 0
    requires k in p.desk.receipts && k in Step(c, cfg, h, p, e).desk.receipts
    ensures p.desk.receipts[k].status.BlockAccepted? ==> Step(c, cfg, h, p, e).desk.receipts[k].status.BlockAccepted?
  {
    if !e.Record? && !e.Finish? {
      hide *;
      ReceiptsUntouched(c, cfg, h, p, e);
    } else if Enabled(p, e) {
      hide *;
      ReceiptStored(c, cfg, h, p, e);
    }
  }

  lemma {:induction false} ReceiptStored(c: Codec, cfg: Config, h: Hashing, p: Pool, e: Event)
    requires ValidConfig(cfg) && Inv(c, cfg, h, p) && p.books.window.windowShares >= 0
    requires Enabled(p, e) && (e.Record? || e.Finish?)
    ensures forall k :: k in p.desk.receipts && k in Step(c, cfg, h, p, e).desk.receipts ==>
      (Step(c, cfg, h, p, e).desk.receipts[k] == p.desk.receipts[k] || Step(c, cfg, h, p, e).desk.receipts[k].status.BlockAccepted?)
  {
    hide StoreReceipt, ReceiptsOk, BooksOk, JobsListed, Remembered, Earned, HasKey, DrawnIds;
    var call := p.calls[e.token];
    assert CallOk(h, p, call);
    var status := if e.Record? then ShareAccepted else BlockAccepted(h.idHex(call.Header()));
    var r := ReceiptOf(h, call, call.phase.sequence, status);
    assert Step(c, cfg, h, p, e).desk.receipts == StoreReceipt(p.desk, cfg.maxReceipts, call.Key(), r).receipts;
    hide Step;
    StoreReceiptFacts(p.desk, cfg.maxReceipts, call.Key(), r);
  }

  /** Repeating an accepted submission never enters the window again. It returns a receipt, and one with the original
      sequence number, exactly while that receipt is retained. */
  lemma {:induction false} RetryOutcome(c: Codec, cfg: Config, h: Hashing, p: Pool, id: string, nonce: U64, now: int, tip: Hash, i: nat)
    requires Inv(c, cfg, h, p) && i < |p.books.history| && Key(p.books.history[i]) == (id, nonce)
    ensures var o := Begin(p.desk, cfg, id, nonce, now, tip).1;
            && !o.Reserved?
            && (o.Reply? <==> (id, nonce) in p.desk.receipts)
            && (o.Reply? ==> o.receipt.sequence == p.books.history[i].sequence)
  {
    hide DeskOk, CallsOk, Rolling, HasKey;
    var k := (id, nonce);
    KeyAt(p.books.history, i);
    assert Remembered(p.desk.jobs, k);
    if k in p.desk.receipts {
      assert Vouched(p.books.history, k, p.desk.receipts[k]);
      var j :| 0 <= j < |p.books.history| && Tells(p.books.history[j], k, p.desk.receipts[k]);
      assert Key(p.books.history[j]) == Key(p.books.history[i]);
    }
  }

  /** The receipt can be lost while the job lives: with room for one receipt, a second share evicts the first, and
      repeating the first is then refused as a duplicate. */
  lemma {:induction false} EvictedReceiptIsRefused(cfg: Config, d: Desk, id: string, first: U64, second: U64, r: Receipt, now: int)
    requires cfg.maxReceipts == 1 && first != second
    requires d.receipts.Keys == {(id, first)} && d.receiptOrder == [(id, first)]
    requires id in d.jobs && first in d.jobs[id].seen && now < d.jobs[id].expiresAt
    ensures Begin(StoreReceipt(d, 1, (id, second), r), cfg, id, first, now, d.jobs[id].header.prevBlock).1
         == Refused(DuplicateSubmission)
  {
    assert |d.receipts| == |d.receipts.Keys| == |{(id, first)}|;
    assert (d.receipts - {(id, first)}).Keys == {} && d.receiptOrder[1..] == [];
    assert d.receipts - {(id, first)} == map[];
    assert DropOldest(d.receipts, d.receiptOrder, 1) == DropOldest(map[], [], 1);
  }
}
