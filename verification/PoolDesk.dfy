/** Jobs and receipts of the pool coordinator (pool/pplns_coordinator.go). Each method is one mutex-held section. */
module PoolDesk {
  import opened Types

  type ShareKey = (string, U64)

  /** `serial` tells two jobs apart as a pointer comparison would. */
  datatype Job = Job(
    serial: nat, header: Header, address: string, height: int, expiresAt: int,
    networkTarget: nat, shareTarget: nat, seen: set<U64>)

  datatype Status = ShareAccepted | BlockAccepted(blockId: string)

  datatype Receipt = Receipt(status: Status, shareHash: string, sequence: U64, height: int)

  datatype Config = Config(maxJobs: nat, maxSubmissions: nat, maxReceipts: nat)

  datatype Desk = Desk(jobs: map<string, Job>, order: seq<string>, receipts: map<ShareKey, Receipt>, receiptOrder: seq<ShareKey>)

  datatype Refusal = UnknownJob | ExpiredJob | StaleJob | DuplicateSubmission | SubmissionLimit | LowDifficulty
                   | WindowRefused | BlockRejected

  datatype Outcome = Reply(receipt: Receipt) | Refused(error: Refusal) | Reserved(job: Job)

  // ---- the sections as functions ----

  function DropOldest(receipts: map<ShareKey, Receipt>, receiptOrder: seq<ShareKey>, max: nat): (map<ShareKey, Receipt>, seq<ShareKey>) {
    if |receipts| >= max && receiptOrder != [] then DropOldest(receipts - {receiptOrder[0]}, receiptOrder[1..], max)
    else (receipts, receiptOrder)
  }

  function StoreReceipt(d: Desk, max: nat, key: ShareKey, r: Receipt): Desk {
    if key in d.receipts then d.(receipts := d.receipts[key := r])
    else
      var (receipts, receiptOrder) := DropOldest(d.receipts, d.receiptOrder, max);
      d.(receipts := receipts[key := r], receiptOrder := receiptOrder + [key])
  }

  function Release(d: Desk, id: string, serial: nat, nonce: U64): Desk {
    if id in d.jobs && d.jobs[id].serial == serial
    then d.(jobs := d.jobs[id := d.jobs[id].(seen := d.jobs[id].seen - {nonce})])
    else d
  }

  function DropJob(d: Desk, id: string, serial: nat): Desk {
    if id in d.jobs && d.jobs[id].serial == serial then d.(jobs := d.jobs - {id}) else d
  }

  function Prune(jobs: map<string, Job>, order: seq<string>, now: int): (map<string, Job>, seq<string>)
    decreases |order|
  {
    if order == [] then (jobs, [])
    else if order[0] !in jobs then Prune(jobs, order[1..], now)
    else if now >= jobs[order[0]].expiresAt then Prune(jobs - {order[0]}, order[1..], now)
    else
      var (live, kept) := Prune(jobs, order[1..], now);
      (live, [order[0]] + kept)
  }

  function EvictOldest(jobs: map<string, Job>, order: seq<string>): (r: (map<string, Job>, seq<string>))
    ensures order != [] ==> |r.1| < |order|
    decreases |order|
  {
    if order == [] then (jobs, order)
    else if order[0] in jobs then (jobs - {order[0]}, order[1..])
    else EvictOldest(jobs, order[1..])
  }

  function EvictUntil(jobs: map<string, Job>, order: seq<string>, max: nat): (map<string, Job>, seq<string>)
    decreases |order|
  {
    if |jobs| < max || order == [] then (jobs, order)
    else
      var (j, o) := EvictOldest(jobs, order);
      EvictUntil(j, o, max)
  }

  /** The locked part of `Issue`. */
  function AddJob(d: Desk, cfg: Config, now: int, id: string, job: Job): Desk {
    var (live, kept) := Prune(d.jobs, d.order, now);
    var (jobs, order) := EvictUntil(live, kept, cfg.maxJobs);
    d.(jobs := jobs[id := job], order := order + [id])
  }

  /** The first locked part of `Submit`. */
  function Begin(d: Desk, cfg: Config, id: string, nonce: U64, now: int, tip: Hash): (Desk, Outcome) {
    if (id, nonce) in d.receipts then (d, Reply(d.receipts[(id, nonce)]))
    else if id !in d.jobs then (d, Refused(UnknownJob))
    else
      var job := d.jobs[id];
      if now >= job.expiresAt then (d.(jobs := d.jobs - {id}), Refused(ExpiredJob))
      else if job.header.prevBlock != tip then (d.(jobs := d.jobs - {id}), Refused(StaleJob))
      else if nonce in job.seen then (d, Refused(DuplicateSubmission))
      else if |job.seen| >= cfg.maxSubmissions then (d, Refused(SubmissionLimit))
      else
        var reserved := job.(seen := job.seen + {nonce});
        (d.(jobs := d.jobs[id := reserved]), Reserved(reserved))
  }

  /** The last locked part of `Submit`, after a block was accepted. */
  function Win(d: Desk, max: nat, key: ShareKey, r: Receipt): Desk {
    StoreReceipt(d, max, key, r).(jobs := map[], order := [])
  }

  // ---- what the lists promise ----

  ghost predicate NoRepeats<T>(s: seq<T>) {
    forall i, j :: 0 <= i < j < |s| ==> s[i] != s[j]
  }

  /** Every live job is in the order list, and the receipt list names exactly the retained receipts, once each. */
  ghost predicate Listed(d: Desk) {
    && (forall id :: id in d.jobs ==> id in d.order)
    && NoRepeats(d.receiptOrder)
    && (forall k :: k in d.receipts <==> k in d.receiptOrder)
  }

  ghost predicate Bounded(d: Desk, cfg: Config) {
    && |d.jobs| <= cfg.maxJobs
    && |d.receipts| <= cfg.maxReceipts
    && forall id :: id in d.jobs ==> |d.jobs[id].seen| <= cfg.maxSubmissions
  }

  ghost predicate ValidConfig(cfg: Config) {
    cfg.maxJobs >= 1 && cfg.maxSubmissions >= 1 && cfg.maxReceipts >= 1
  }

  lemma {:induction false} TailUnique<T>(s: seq<T>)
    requires s != [] && NoRepeats(s)
    ensures NoRepeats(s[1..]) && s[0] !in s[1..]
    ensures forall x :: x in s[1..] <==> x in s && x != s[0]
  {
    assert s == [s[0]] + s[1..];
  }

  ghost predicate ReceiptsListed(receipts: map<ShareKey, Receipt>, receiptOrder: seq<ShareKey>) {
    NoRepeats(receiptOrder) && (forall k :: k in receipts <==> k in receiptOrder)
  }

  /** Dropping oldest receipts makes room, and every receipt it keeps is unchanged. */
  lemma {:induction false} DropOldestFacts(receipts: map<ShareKey, Receipt>, receiptOrder: seq<ShareKey>, max: nat)
    requires max >= 1 && ReceiptsListed(receipts, receiptOrder)
    ensures var (r, o) := DropOldest(receipts, receiptOrder, max);
            && ReceiptsListed(r, o) && |r| < max
            && (forall k :: k in r ==> k in receipts && r[k] == receipts[k])
    decreases |receiptOrder|
  {
    if |receipts| >= max && receiptOrder != [] {
      TailUnique(receiptOrder);
      DropOldestFacts(receipts - {receiptOrder[0]}, receiptOrder[1..], max);
    } else if receiptOrder == [] {
      assert receipts == map[];
    }
  }

  lemma {:induction false} StoreReceiptFacts(d: Desk, max: nat, key: ShareKey, r: Receipt)
    requires max >= 1 && ReceiptsListed(d.receipts, d.receiptOrder) && |d.receipts| <= max
    ensures var e := StoreReceipt(d, max, key, r);
            && ReceiptsListed(e.receipts, e.receiptOrder) && |e.receipts| <= max
            && e.jobs == d.jobs && e.order == d.order
            && key in e.receipts && e.receipts[key] == r
            && (forall k :: k in e.receipts && k != key ==> k in d.receipts && e.receipts[k] == d.receipts[k])
  {
    hide DropOldest;
    if key in d.receipts {
      assert d.receipts[key := r].Keys == d.receipts.Keys;
      SameSize(d.receipts, d.receipts[key := r]);
    } else {
      DropOldestFacts(d.receipts, d.receiptOrder, max);
      var (rs, o) := DropOldest(d.receipts, d.receiptOrder, max);
      assert key !in rs;
      AddedSize(rs, key, r);
      AppendUnique(o, key);
    }
  }

  lemma {:induction false} SameSize<K, V>(a: map<K, V>, b: map<K, V>)
    requires a.Keys == b.Keys
    ensures |a| == |b|
  {
    assert |a| == |a.Keys| && |b| == |b.Keys|;
  }

  lemma {:induction false} AddedSize<K, V>(a: map<K, V>, k: K, v: V)
    ensures |a[k := v]| <= |a| + 1
  {
    var b := a[k := v];
    assert b.Keys == a.Keys + {k};
    assert |b| == |b.Keys| && |a| == |a.Keys|;
    if k in a {
      assert a.Keys + {k} == a.Keys;
    }
  }

  lemma {:induction false} AppendUnique<T>(s: seq<T>, x: T)
    requires NoRepeats(s) && x !in s
    ensures NoRepeats(s + [x])
    ensures forall y :: y in s + [x] <==> y in s || y == x
  {
  }

  ghost predicate JobsListed(jobs: map<string, Job>, order: seq<string>) {
    forall id :: id in jobs ==> id in order
  }

  lemma {:induction false} Uncover(jobs: map<string, Job>, order: seq<string>)
    requires order != []
    ensures JobsListed(jobs, order) <==> JobsListed(jobs - {order[0]}, order[1..])
  {
    assert order == [order[0]] + order[1..];
    assert forall id :: id in order <==> id == order[0] || id in order[1..];
  }

  /** Pruning keeps exactly the unexpired listed jobs. */
  lemma {:induction false} PruneFacts(jobs: map<string, Job>, order: seq<string>, now: int)
    ensures var (live, kept) := Prune(jobs, order, now);
            && (forall id :: id in live <==> id in jobs && (id in order ==> now < jobs[id].expiresAt))
            && (forall id :: id in live ==> live[id] == jobs[id])
            && (forall id :: id in kept <==> id in order && id in jobs && now < jobs[id].expiresAt)
    decreases |order|
  {
    if order != [] {
      assert order == [order[0]] + order[1..];
      assert forall id :: id in order <==> id == order[0] || id in order[1..];
      if order[0] in jobs && now >= jobs[order[0]].expiresAt {
        PruneFacts(jobs - {order[0]}, order[1..], now);
      } else {
        PruneFacts(jobs, order[1..], now);
      }
    }
  }

  lemma {:induction false} EvictOldestFacts(jobs: map<string, Job>, order: seq<string>)
    requires JobsListed(jobs, order)
    ensures var (j, o) := EvictOldest(jobs, order);
            && JobsListed(j, o)
            && (jobs != map[] ==> |j| < |jobs|)
            && (forall id :: id in j ==> id in jobs && j[id] == jobs[id])
    decreases |order|
  {
    if order == [] {
      assert jobs == map[];
    } else {
      Uncover(jobs, order);
      if order[0] in jobs {
        RemovedSize(jobs, order[0]);
      } else {
        assert jobs - {order[0]} == jobs;
        EvictOldestFacts(jobs, order[1..]);
      }
    }
  }

  lemma {:induction false} RemovedSize<K, V>(a: map<K, V>, k: K)
    requires k in a
    ensures |a - {k}| == |a| - 1
  {
    assert (a - {k}).Keys == a.Keys - {k};
    assert |a| == |a.Keys| && |a - {k}| == |(a - {k}).Keys|;
  }

  /** Because every live job is listed, eviction always makes room. */
  lemma {:induction false} EvictUntilFacts(jobs: map<string, Job>, order: seq<string>, max: nat)
    requires max >= 1 && JobsListed(jobs, order)
    ensures var (j, o) := EvictUntil(jobs, order, max);
            && JobsListed(j, o) && |j| < max
            && (forall id :: id in j ==> id in jobs && j[id] == jobs[id])
    decreases |order|
  {
    assert order == [] ==> jobs == map[];
    if |jobs| >= max {
      EvictOldestFacts(jobs, order);
      var (j, o) := EvictOldest(jobs, order);
      EvictUntilFacts(j, o, max);
    }
  }

  lemma {:induction false} AddJobFacts(d: Desk, cfg: Config, now: int, id: string, job: Job)
    requires ValidConfig(cfg) && JobsListed(d.jobs, d.order)
    ensures var e := AddJob(d, cfg, now, id, job);
            && JobsListed(e.jobs, e.order) && |e.jobs| <= cfg.maxJobs
            && e.receipts == d.receipts && e.receiptOrder == d.receiptOrder
            && id in e.jobs && e.jobs[id] == job
            && (forall i :: i in e.jobs && i != id ==> i in d.jobs && e.jobs[i] == d.jobs[i])
  {
    hide Prune, EvictUntil;
    PruneFacts(d.jobs, d.order, now);
    var (live, kept) := Prune(d.jobs, d.order, now);
    EvictUntilFacts(live, kept, cfg.maxJobs);
    var (jobs, order) := EvictUntil(live, kept, cfg.maxJobs);
    AddedSize(jobs, id, job);
  }

  // ---- oldest first, and no more than needed ----

  lemma {:induction false} ListedSize(receipts: map<ShareKey, Receipt>, receiptOrder: seq<ShareKey>)
    requires ReceiptsListed(receipts, receiptOrder)
    ensures |receipts| == |receiptOrder|
    decreases |receiptOrder|
  {
    if receiptOrder == [] {
      assert receipts == map[];
    } else {
      TailUnique(receiptOrder);
      ListedSize(receipts - {receiptOrder[0]}, receiptOrder[1..]);
      RemovedSize(receipts, receiptOrder[0]);
    }
  }

  /** Exactly the oldest receipts go, and exactly as many as it takes to make room for one more. */
  lemma {:induction false} DropOldestExact(receipts: map<ShareKey, Receipt>, receiptOrder: seq<ShareKey>, max: nat)
    requires max >= 1 && ReceiptsListed(receipts, receiptOrder)
    ensures var gone := if |receiptOrder| < max then 0 else |receiptOrder| - max + 1;
            var (r, o) := DropOldest(receipts, receiptOrder, max);
            && o == receiptOrder[gone..]
            && (forall k :: k in r <==> k in receipts && k !in receiptOrder[..gone])
            && (forall k :: k in r ==> r[k] == receipts[k])
    decreases |receiptOrder|
  {
    hide ReceiptsListed;
    ListedSize(receipts, receiptOrder);
    if |receipts| >= max {
      TailListed(receipts, receiptOrder);
      var gone, rest := |receiptOrder| - max + 1, receiptOrder[1..];
      assert receiptOrder[..gone] == [receiptOrder[0]] + rest[..gone - 1];
      assert receiptOrder[gone..] == rest[gone - 1..];
      DropOldestExact(receipts - {receiptOrder[0]}, rest, max);
    }
  }

  lemma {:induction false} TailListed(receipts: map<ShareKey, Receipt>, receiptOrder: seq<ShareKey>)
    requires receiptOrder != [] && ReceiptsListed(receipts, receiptOrder)
    ensures ReceiptsListed(receipts - {receiptOrder[0]}, receiptOrder[1..])
  {
    TailUnique(receiptOrder);
  }

  function Only(order: seq<string>, ids: set<string>): seq<string> {
    if order == [] then []
    else (if order[0] in ids then [order[0]] else []) + Only(order[1..], ids)
  }

  lemma {:induction false} OnlySame(order: seq<string>, a: set<string>, b: set<string>)
    requires forall id :: id in order ==> (id in a <==> id in b)
    ensures Only(order, a) == Only(order, b)
  {
    if order != [] {
      OnlySame(order[1..], a, b);
    }
  }

  /** Pruning keeps the unexpired jobs in the order they were issued. */
  lemma {:induction false} PruneOrder(jobs: map<string, Job>, order: seq<string>, now: int)
    ensures Prune(jobs, order, now).1 == Only(order, set id | id in jobs && now < jobs[id].expiresAt)
    decreases |order|
  {
    if order != [] {
      var ids := set id | id in jobs && now < jobs[id].expiresAt;
      if order[0] in jobs && now >= jobs[order[0]].expiresAt {
        var fewer := jobs - {order[0]};
        PruneOrder(fewer, order[1..], now);
        assert (set id | id in fewer && now < fewer[id].expiresAt) == ids;
      } else {
        PruneOrder(jobs, order[1..], now);
      }
    }
  }

  /** Exactly the jobs named in `gone` are missing. */
  ghost predicate Shed(jobs: map<string, Job>, left: map<string, Job>, gone: seq<string>) {
    && (forall id :: id in left <==> id in jobs && id !in gone)
    && (forall id :: id in left ==> left[id] == jobs[id])
  }

  lemma {:induction false} ShedNone(jobs: map<string, Job>)
    ensures Shed(jobs, jobs, [])
  {
  }

  lemma {:induction false} ShedOne(jobs: map<string, Job>, id: string)
    ensures Shed(jobs, jobs - {id}, [id])
  {
  }

  lemma {:induction false} ShedAbsent(jobs: map<string, Job>, left: map<string, Job>, id: string, gone: seq<string>)
    requires Shed(jobs, left, gone) && id !in jobs
    ensures Shed(jobs, left, [id] + gone)
  {
  }

  lemma {:induction false} ShedBoth(jobs: map<string, Job>, mid: map<string, Job>, left: map<string, Job>, a: seq<string>, b: seq<string>)
    requires Shed(jobs, mid, a) && Shed(mid, left, b)
    ensures Shed(jobs, left, a + b)
  {
  }

  lemma {:induction false} SplitsAt(order: seq<string>, n: nat, m: nat)
    requires n <= |order| && m <= |order| - n
    ensures order[..n + m] == order[..n] + order[n..][..m] && order[n + m..] == order[n..][m..]
  {
  }

  lemma {:induction false} EvictOldestSize(jobs: map<string, Job>, order: seq<string>)
    requires JobsListed(jobs, order) && jobs != map[]
    ensures |EvictOldest(jobs, order).0| == |jobs| - 1
    decreases |order|
  {
    SomeListed(jobs, order);
    if order[0] in jobs {
      RemovedSize(jobs, order[0]);
    } else {
      Uncover(jobs, order);
      hide JobsListed;
      assert jobs - {order[0]} == jobs;
      EvictOldestSize(jobs, order[1..]);
    }
  }

  lemma {:induction false} EvictOldestSplit(jobs: map<string, Job>, order: seq<string>) returns (n: nat)
    requires order != []
    ensures 0 < n <= |order| && EvictOldest(jobs, order).1 == order[n..] && Shed(jobs, EvictOldest(jobs, order).0, order[..n])
    decreases |order|
  {
    hide Shed;
    SplitsFirst(order);
    if order[0] in jobs {
      n := 1;
      ShedOne(jobs, order[0]);
    } else if order[1..] == [] {
      n := 1;
      assert EvictOldest(jobs, []) == (jobs, []);
      ShedNone(jobs);
      ShedAbsent(jobs, jobs, order[0], []);
      assert [order[0]] + [] == [order[0]];
    } else {
      var m := EvictOldestSplit(jobs, order[1..]);
      n := m + 1;
      SplitsAt(order, 1, m);
      ShedAbsent(jobs, EvictOldest(jobs, order[1..]).0, order[0], order[1..][..m]);
    }
  }

  lemma {:induction false} SplitsFirst(order: seq<string>)
    requires order != []
    ensures order[..1] == [order[0]]
  {
  }

  lemma {:induction false} SomeListed(jobs: map<string, Job>, order: seq<string>)
    requires JobsListed(jobs, order) && jobs != map[]
    ensures order != []
  {
    var id :| id in jobs;
  }

  lemma {:induction false} EvictUntilSize(jobs: map<string, Job>, order: seq<string>, max: nat)
    requires max >= 1 && JobsListed(jobs, order)
    ensures |EvictUntil(jobs, order, max).0| == if |jobs| < max then |jobs| else max - 1
    decreases |order|
  {
    hide JobsListed, EvictOldest;
    if |jobs| >= max {
      NonemptyMap(jobs);
      SomeListed(jobs, order);
      EvictOldestSize(jobs, order);
      EvictOldestFacts(jobs, order);
      EvictUntilSize(EvictOldest(jobs, order).0, EvictOldest(jobs, order).1, max);
    }
  }

  lemma {:induction false} NonemptyMap(jobs: map<string, Job>)
    requires |jobs| > 0
    ensures jobs != map[]
  {
  }

  lemma {:induction false} EvictUntilSplit(jobs: map<string, Job>, order: seq<string>, max: nat) returns (k: nat)
    ensures k <= |order| && (|jobs| < max ==> k == 0)
    ensures EvictUntil(jobs, order, max).1 == order[k..] && Shed(jobs, EvictUntil(jobs, order, max).0, order[..k])
    decreases |order|
  {
    hide Shed, EvictOldest;
    if |jobs| < max || order == [] {
      k := 0;
      ShedNone(jobs);
    } else {
      var n := EvictOldestSplit(jobs, order);
      var (j, o) := EvictOldest(jobs, order);
      var m := EvictUntilSplit(j, o, max);
      k := n + m;
      SplitsAt(order, n, m);
      ShedBoth(jobs, j, EvictUntil(j, o, max).0, order[..n], o[..m]);
    }
  }

  /** Room for one more is made by evicting oldest live jobs, and exactly as many as it takes. */
  lemma {:induction false} EvictUntilExact(jobs: map<string, Job>, order: seq<string>, max: nat) returns (k: nat)
    requires max >= 1 && JobsListed(jobs, order)
    ensures k <= |order| && (|jobs| < max ==> k == 0)
    ensures var (j, o) := EvictUntil(jobs, order, max);
            o == order[k..] && Shed(jobs, j, order[..k]) && |j| == if |jobs| < max then |jobs| else max - 1
  {
    hide *;
    k := EvictUntilSplit(jobs, order, max);
    EvictUntilSize(jobs, order, max);
  }

  /** Issuing a job: expired jobs go, then oldest live ones while the limit leaves no room, and the new job comes last. */
  lemma {:induction false} AddJobExact(d: Desk, cfg: Config, now: int, id: string, job: Job) returns (k: nat)
    requires ValidConfig(cfg) && JobsListed(d.jobs, d.order)
    ensures var kept := Only(d.order, set i | i in d.jobs && now < d.jobs[i].expiresAt);
            var live := map i | i in d.jobs && now < d.jobs[i].expiresAt :: d.jobs[i];
            var e := AddJob(d, cfg, now, id, job);
            && k <= |kept| && (|live| < cfg.maxJobs ==> k == 0)
            && e.order == kept[k..] + [id] && id in e.jobs && e.jobs[id] == job
            && (forall i :: i in e.jobs && i != id <==> i in live && i !in kept[..k] && i != id)
            && (forall i :: i in e.jobs && i != id ==> e.jobs[i] == d.jobs[i])
  {
    hide Prune, EvictUntil, Only;
    PruneFacts(d.jobs, d.order, now);
    PruneOrder(d.jobs, d.order, now);
    var live := map i | i in d.jobs && now < d.jobs[i].expiresAt :: d.jobs[i];
    assert Prune(d.jobs, d.order, now).0 == live;
    k := EvictUntilExact(live, Prune(d.jobs, d.order, now).1, cfg.maxJobs);
  }

  // ---- the sections as the code performs them ----

  class PplnsCoordinator {
    var jobs: map<string, Job>
    var order: seq<string>
    var receipts: map<ShareKey, Receipt>
    var receiptOrder: seq<ShareKey>

    ghost function View(): Desk
      reads this
    {
      Desk(jobs, order, receipts, receiptOrder)
    }

    constructor ()
      ensures View() == Desk(map[], [], map[], [])
    {
      jobs, order, receipts, receiptOrder := map[], [], map[], [];
    }

    method StoreReceiptLocked(cfg: Config, key: ShareKey, result: Receipt)
      modifies this`receipts, this`receiptOrder
      ensures View() == StoreReceipt(old(View()), cfg.maxReceipts, key, result)
    {
      if key in receipts {
        receipts := receipts[key := result];
        return;
      }
      while |receipts| >= cfg.maxReceipts && |receiptOrder| > 0
        invariant DropOldest(receipts, receiptOrder, cfg.maxReceipts)
               == DropOldest(old(receipts), old(receiptOrder), cfg.maxReceipts)
        decreases |receiptOrder|
      {
        var oldest := receiptOrder[0];
        receiptOrder := receiptOrder[1..];
        receipts := receipts - {oldest};
      }
      receipts := receipts[key := result];
      receiptOrder := receiptOrder + [key];
    }

    method ReleaseSubmission(id: string, serial: nat, nonce: U64)
      modifies this`jobs
      ensures View() == Release(old(View()), id, serial, nonce)
    {
      if id in jobs && jobs[id].serial == serial {
        jobs := jobs[id := jobs[id].(seen := jobs[id].seen - {nonce})];
      }
    }

    method DropStale(id: string, serial: nat)
      modifies this`jobs
      ensures View() == DropJob(old(View()), id, serial)
    {
      if id in jobs && jobs[id].serial == serial {
        jobs := jobs - {id};
      }
    }

    method PruneLocked(now: int)
      modifies this`jobs, this`order
      ensures (jobs, order) == Prune(old(jobs), old(order), now)
    {
      var kept: seq<string>, i := [], 0;
      assert order[0..] == order;
      while i < |order|
        invariant 0 <= i <= |order| && order == old(order)
        invariant Prune(old(jobs), old(order), now).0 == Prune(jobs, order[i..], now).0
        invariant Prune(old(jobs), old(order), now).1 == kept + Prune(jobs, order[i..], now).1
      {
        var id := order[i];
        assert order[i..][0] == id && order[i..][1..] == order[i + 1..];
        assert kept + ([id] + Prune(jobs, order[i + 1..], now).1) == (kept + [id]) + Prune(jobs, order[i + 1..], now).1;
        if id in jobs {
          if now >= jobs[id].expiresAt {
            jobs := jobs - {id};
          } else {
            kept := kept + [id];
          }
        }
        i := i + 1;
      }
      assert order[i..] == [] && kept + [] == kept;
      order := kept;
    }

    method EvictOldestLocked()
      modifies this`jobs, this`order
      ensures (jobs, order) == EvictOldest(old(jobs), old(order))
    {
      while |order| > 0
        invariant EvictOldest(jobs, order) == EvictOldest(old(jobs), old(order))
        decreases |order|
      {
        var id := order[0];
        order := order[1..];
        if id in jobs {
          jobs := jobs - {id};
          return;
        }
      }
    }

    /** The eviction loop has no exit of its own for an exhausted list; it ends because every live job is listed. */
    method InsertJob(cfg: Config, now: int, id: string, job: Job)
      requires ValidConfig(cfg) && JobsListed(jobs, order)
      modifies this`jobs, this`order
      ensures View() == AddJob(old(View()), cfg, now, id, job)
    {
      hide Prune, EvictOldest, EvictUntil, JobsListed;
      PruneKeepsListed(jobs, order, now);
      PruneLocked(now);
      ghost var live, kept := jobs, order;
      while |jobs| >= cfg.maxJobs
        invariant JobsListed(jobs, order)
        invariant EvictUntil(jobs, order, cfg.maxJobs) == EvictUntil(live, kept, cfg.maxJobs)
        decreases |jobs|
      {
        EvictStep(jobs, order, cfg.maxJobs);
        EvictOldestLocked();
      }
      EvictDone(jobs, order, cfg.maxJobs);
      jobs := jobs[id := job];
      order := order + [id];
    }

    method BeginSubmit(cfg: Config, id: string, nonce: U64, now: int, tip: Hash) returns (o: Outcome)
      modifies this`jobs
      ensures (View(), o) == Begin(old(View()), cfg, id, nonce, now, tip)
    {
      if (id, nonce) in receipts {
        return Reply(receipts[(id, nonce)]);
      }
      if id !in jobs {
        return Refused(UnknownJob);
      }
      var job := jobs[id];
      if now >= job.expiresAt {
        jobs := jobs - {id};
        return Refused(ExpiredJob);
      }
      if job.header.prevBlock != tip {
        jobs := jobs - {id};
        return Refused(StaleJob);
      }
      if nonce in job.seen {
        return Refused(DuplicateSubmission);
      }
      if |job.seen| >= cfg.maxSubmissions {
        return Refused(SubmissionLimit);
      }
      job := job.(seen := job.seen + {nonce});
      jobs := jobs[id := job];
      return Reserved(job);
    }

    method FinishWin(cfg: Config, key: ShareKey, result: Receipt)
      modifies this
      ensures View() == Win(old(View()), cfg.maxReceipts, key, result)
    {
      StoreReceiptLocked(cfg, key, result);
      jobs, order := map[], [];
    }
  }

  lemma {:induction false} PruneKeepsListed(jobs: map<string, Job>, order: seq<string>, now: int)
    requires JobsListed(jobs, order)
    ensures JobsListed(Prune(jobs, order, now).0, Prune(jobs, order, now).1)
  {
    hide Prune;
    PruneFacts(jobs, order, now);
  }

  lemma {:induction false} EvictStep(jobs: map<string, Job>, order: seq<string>, max: nat)
    requires max >= 1 && |jobs| >= max && JobsListed(jobs, order)
    ensures var (j, o) := EvictOldest(jobs, order);
            && EvictUntil(jobs, order, max) == EvictUntil(j, o, max)
            && |j| < |jobs| && JobsListed(j, o)
  {
    EvictOldestFacts(jobs, order);
  }

  lemma {:induction false} EvictDone(jobs: map<string, Job>, order: seq<string>, max: nat)
    requires |jobs| < max
    ensures EvictUntil(jobs, order, max) == (jobs, order)
  {
  }
}
