/** Consolidating one key's small outputs (wallet/consolidation.go). */
module Cleanup {
  import opened Types
  import opened Money
  import opened Varint
  import opened Wire
  import opened Sorting
  import opened Order
  import opened Signing
  import opened Selection
  import opened Payment
  import opened PaymentTheorems
  import opened Maximum

  datatype Group = Group(key: int, address: string, pkh: Pkh, candidates: seq<Candidate>, total: int)

  datatype PreparedCleanup = PreparedCleanup(tx: Tx, address: string, amount: int, fee: int, selected: seq<OutPoint>, more: bool)

  datatype Refusal = Inconsistent | NoneNeeded | TooSmall | Oversized

  /** The wallet a cleanup works for: its keys and how an owner's address is spelled. */
  datatype Wallet = Wallet(env: Env, keys: seq<Key>, address: Pkh -> string)

  function OfKey(cs: seq<Candidate>, k: int): (r: seq<Candidate>)
    ensures forall i :: 0 <= i < |r| ==> r[i].key == k
    ensures |r| <= |cs|
  {
    if cs == [] then []
    else OfKey(cs[..|cs| - 1], k) + (if cs[|cs| - 1].key == k then [cs[|cs| - 1]] else [])
  }

  function GroupFor(w: Wallet, cs: seq<Candidate>, k: int): Group
    requires 0 <= k < |w.keys|
  {
    var pkh := w.env.pkhOf(w.keys[k].pub);
    Group(k, w.address(pkh), pkh, OfKey(cs, k), Amounts(OfKey(cs, k)))
  }

  predicate Worth(g: Group, fee: int) {
    |g.candidates| >= 2 && g.total > fee
  }

  /** Most outputs first, then address. */
  predicate GroupLe(x: Group, y: Group) {
    |x.candidates| > |y.candidates| || (|x.candidates| == |y.candidates| && LexLe(x.address, y.address))
  }

  lemma {:induction false} GroupOrder()
    ensures TotalPreorder(GroupLe)
  {
    hide LexLe;
    LexIsTotalOrder();
  }

  /** Smallest amount first, then outpoint. */
  predicate SmallFirst(x: Candidate, y: Candidate) {
    if x.amount != y.amount then x.amount < y.amount
    else if BigEndian(x.op.txId) != BigEndian(y.op.txId) then BigEndian(x.op.txId) < BigEndian(y.op.txId)
    else x.op.idx <= y.op.idx
  }

  lemma {:induction false} SmallFirstOrder()
    ensures TotalPreorder(SmallFirst)
  {
    hide BigEndian;
  }

  /** The transaction that merges the first `n` outputs back into their own key. */
  function MergeTx(w: Wallet, pkh: Pkh, cs: seq<Candidate>, n: nat, fee: int): Tx
    requires n <= |cs|
  {
    SignedTx(w.env, Tx(1, Drafted(cs[..n]), [TxOut(Amounts(cs[..n]) - fee, pkh)], []), KeysFor(w.keys, cs[..n]))
  }

  predicate Fits(w: Wallet, pkh: Pkh, cs: seq<Candidate>, n: nat, fee: int)
    requires n <= |cs|
  {
    |TxBytes(MergeTx(w, pkh, cs, n, fee))| <= MAX_TX_BYTES
  }

  lemma {:induction false} FitsBySize(w: Wallet, pkh: Pkh, cs: seq<Candidate>, n: nat, fee: int)
    requires n <= |cs|
    ensures Fits(w, pkh, cs, n, fee) <==> n <= 74
  {
    hide TxBytes, SizeFor, Amounts, KeysFor, Drafted;
    SignedSize(w.env, Tx(1, Drafted(cs[..n]), [TxOut(Amounts(cs[..n]) - fee, pkh)], []), KeysFor(w.keys, cs[..n]));
    SeventyFour(n, 1);
  }

  // ---- grouping ----

  ghost predicate Grouped(w: Wallet, cs: seq<Candidate>, groups: map<int, Group>) {
    && (forall k :: k in groups ==> 0 <= k < |w.keys| && groups[k] == GroupFor(w, cs, k))
    && (forall k :: k in groups <==> OfKey(cs, k) != [])
  }

  lemma {:induction false} OfKeySnoc(cs: seq<Candidate>, c: Candidate, k: int)
    ensures OfKey(cs + [c], k) == OfKey(cs, k) + (if c.key == k then [c] else [])
    ensures c.key != k ==> OfKey(cs + [c], k) == OfKey(cs, k)
  {
    assert (cs + [c])[..|cs|] == cs;
  }

  lemma {:induction false} GroupedStep(w: Wallet, cs: seq<Candidate>, c: Candidate, groups: map<int, Group>)
    requires Grouped(w, cs, groups) && 0 <= c.key < |w.keys|
    ensures Grouped(w, cs + [c], groups[c.key := GroupFor(w, cs + [c], c.key)])
    ensures GroupFor(w, cs + [c], c.key).candidates == OfKey(cs, c.key) + [c]
    ensures GroupFor(w, cs + [c], c.key).total == Amounts(OfKey(cs, c.key)) + c.amount
  {
    hide OfKey, Amounts;
    forall k ensures OfKey(cs + [c], k) == OfKey(cs, k) + (if c.key == k then [c] else [])
             ensures c.key != k ==> OfKey(cs + [c], k) == OfKey(cs, k) {
      OfKeySnoc(cs, c, k);
    }
    AmountsConcat(OfKey(cs, c.key), [c]);
    SingleAmount(c);
  }

  lemma {:induction false} SingleAmount(c: Candidate)
    ensures Amounts([c]) == c.amount
  {
    assert [c][1..] == [];
  }

  lemma {:induction false} EmptyGroups(w: Wallet)
    ensures Grouped(w, [], map[]) && forall k :: OfKey([], k) == []
  {
  }

  method GroupByKey(w: Wallet, outputs: seq<Output>, excluded: set<OutPoint>) returns (groups: map<int, Group>)
    requires EveryConsistent(w.env, w.keys, outputs)
    ensures Grouped(w, Eligible(outputs, excluded), groups)
  {
    hide Eligible, Grouped, OfKey, Amounts;
    groups := map[];
    var i := 0;
    NoneEligible(outputs, excluded);
    EmptyGroups(w);
    while i < |outputs|
      invariant 0 <= i <= |outputs| && Grouped(w, Eligible(outputs[..i], excluded), groups)
    {
      var o := outputs[i];
      ghost var before := Eligible(outputs[..i], excluded);
      assert Consistent(w.env, w.keys, o);
      EligibleSnoc(outputs, i, excluded);
      if o.op !in excluded {
        var c := Candidate(o.op, o.amount, o.key);
        GroupMembers(w, before, groups, o.key);
        GroupedStep(w, before, c, groups);
        var group := if o.key in groups then groups[o.key]
                     else Group(o.key, w.address(w.env.pkhOf(w.keys[o.key].pub)), w.env.pkhOf(w.keys[o.key].pub), [], 0);
        group := group.(total := group.total + o.amount, candidates := group.candidates + [c]);
        groups := groups[o.key := group];
      }
      i := i + 1;
    }
    assert outputs[..i] == outputs;
  }

  lemma {:induction false} GroupMembers(w: Wallet, cs: seq<Candidate>, groups: map<int, Group>, k: int)
    requires Grouped(w, cs, groups) && 0 <= k < |w.keys|
    ensures k in groups ==> groups[k] == GroupFor(w, cs, k)
    ensures k !in groups ==> OfKey(cs, k) == [] && Amounts(OfKey(cs, k)) == 0
  {
    hide OfKey;
  }

  ghost predicate Contender(groups: map<int, Group>, fee: int, k: int) {
    k in groups && Worth(groups[k], fee)
  }

  lemma {:induction false} SomeMember(s: set<int>)
    requires s != {}
    ensures exists x :: x in s
  {
    assert (forall x :: x !in s) ==> s == {};
  }

  /** Visits the groups in an arbitrary order. */
  method ListWorth(groups: map<int, Group>, fee: int) returns (eligible: seq<Group>, multiple: bool, ghost listed: seq<int>)
    ensures forall g :: g in eligible ==> exists k :: Contender(groups, fee, k) && groups[k] == g
    ensures forall k :: Contender(groups, fee, k) ==> groups[k] in eligible
    ensures multiple <==> exists k :: k in groups && |groups[k].candidates| >= 2
    ensures |listed| == |eligible| && (forall i, j :: 0 <= i < j < |listed| ==> listed[i] != listed[j])
    ensures forall k :: k in listed <==> Contender(groups, fee, k)
  {
    eligible, multiple, listed := [], false, [];
    var remaining := groups.Keys;
    while remaining != {}
      invariant remaining <= groups.Keys
      invariant forall g :: g in eligible ==> exists k :: Contender(groups, fee, k) && groups[k] == g
      invariant forall k :: Contender(groups, fee, k) && k !in remaining ==> groups[k] in eligible
      invariant multiple <==> exists k :: k in groups && k !in remaining && |groups[k].candidates| >= 2
      invariant |listed| == |eligible| && (forall i, j :: 0 <= i < j < |listed| ==> listed[i] != listed[j])
      invariant forall k :: k in listed <==> Contender(groups, fee, k) && k !in remaining
      decreases |remaining|
    {
      SomeMember(remaining);
      var k :| k in remaining;
      var g := groups[k];
      remaining := remaining - {k};
      if |g.candidates| >= 2 {
        multiple := true;
        if g.total > fee {
          assert Contender(groups, fee, k);
          eligible, listed := eligible + [g], listed + [k];
        }
      }
    }
  }

  // ---- prefix sums and the binary search ----

  method PrefixSums(cs: seq<Candidate>, fee: int) returns (sums: seq<int>, minimum: nat)
    requires |cs| >= 2 && Amounts(cs) > fee
    ensures |sums| == |cs| + 1 && forall i :: 0 <= i <= |cs| ==> sums[i] == Amounts(cs[..i])
    ensures 2 <= minimum <= |cs| && Amounts(cs[..minimum]) > fee
    ensures forall n :: 2 <= n < minimum ==> Amounts(cs[..n]) <= fee
  {
    hide Amounts;
    sums, minimum := [0], 0;
    NoAmounts(cs);
    var index := 0;
    while index < |cs|
      invariant 0 <= index <= |cs| && |sums| == index + 1 && (forall i :: 0 <= i <= index ==> sums[i] == Amounts(cs[..i]))
      invariant minimum == 0 ==> forall n :: 2 <= n <= index ==> Amounts(cs[..n]) <= fee
      invariant minimum != 0 ==> 2 <= minimum <= index && Amounts(cs[..minimum]) > fee
      invariant minimum != 0 ==> forall n :: 2 <= n < minimum ==> Amounts(cs[..n]) <= fee
    {
      AmountsSnoc(cs, index);
      var next := sums[index] + cs[index].amount;
      sums := sums + [next];
      if minimum == 0 && index + 1 >= 2 && next > fee {
        minimum := index + 1;
      }
      index := index + 1;
    }
    assert cs[..index] == cs;
  }

  /** The largest prefix that still fits, found by bisection. */
  method LargestPrefix(w: Wallet, pkh: Pkh, cs: seq<Candidate>, fee: int, minimum: nat) returns (best: nat, tx: Tx)
    requires 2 <= minimum <= |cs| <= MAX_INPUTS && Fits(w, pkh, cs, minimum, fee)
    ensures minimum <= best <= |cs| && Fits(w, pkh, cs, best, fee) && tx == MergeTx(w, pkh, cs, best, fee)
    ensures forall n :: best < n <= |cs| ==> !Fits(w, pkh, cs, n, fee)
  {
    hide Fits, MergeTx;
    best, tx := minimum, MergeTx(w, pkh, cs, minimum, fee);
    var low, high := minimum + 1, |cs|;
    while low <= high
      invariant minimum <= best == low - 1 <= high <= |cs|
      invariant Fits(w, pkh, cs, best, fee) && tx == MergeTx(w, pkh, cs, best, fee)
      invariant forall n :: high < n <= |cs| ==> !Fits(w, pkh, cs, n, fee)
      decreases high - low
    {
      var middle := low + (high - low) / 2;
      var candidate := MergeTx(w, pkh, cs, middle, fee);
      FitsMeans(w, pkh, cs, middle, fee);
      if |TxBytes(candidate)| <= MAX_TX_BYTES {
        best, tx := middle, candidate;
        low := middle + 1;
      } else {
        forall n | middle <= n <= |cs| ensures !Fits(w, pkh, cs, n, fee) {
          FitsBySize(w, pkh, cs, middle, fee);
          FitsBySize(w, pkh, cs, n, fee);
        }
        high := middle - 1;
      }
    }
  }

  lemma {:induction false} FitsMeans(w: Wallet, pkh: Pkh, cs: seq<Candidate>, n: nat, fee: int)
    requires n <= |cs|
    ensures Fits(w, pkh, cs, n, fee) <==> |TxBytes(MergeTx(w, pkh, cs, n, fee))| <= MAX_TX_BYTES
  {
  }

  // ---- the whole operation ----

  /** The group a cleanup works on: worth it, and first among those that are. */
  ghost predicate FirstGroup(w: Wallet, cs: seq<Candidate>, fee: int, k: int) {
    && 0 <= k < |w.keys| && Worth(GroupFor(w, cs, k), fee)
    && forall j :: 0 <= j < |w.keys| && Worth(GroupFor(w, cs, j), fee) ==> GroupLe(GroupFor(w, cs, k), GroupFor(w, cs, j))
  }

  ghost function Queue(cs: seq<Candidate>, k: int): seq<Candidate> {
    Sort(OfKey(cs, k), SmallFirst)
  }

  /** The largest smallest-first prefix of one key's eligible outputs that fits, returned to that key less the fee. */
  ghost predicate Merges(w: Wallet, cs: seq<Candidate>, fee: int, k: int, p: PreparedCleanup) {
    && FirstGroup(w, cs, fee, k)
    && var queue, n, pkh := Queue(cs, k), |p.selected|, w.env.pkhOf(w.keys[k].pub);
    && 2 <= n <= |queue| && Amounts(queue[..n]) > fee
    && Fits(w, pkh, queue, n, fee) && (forall m :: n < m <= |queue| ==> !Fits(w, pkh, queue, m, fee))
    && p.tx == MergeTx(w, pkh, queue, n, fee) && p.tx.outs == [TxOut(p.amount, pkh)]
    && p.selected == Ops(queue[..n]) && p.amount == Amounts(queue[..n]) - fee && p.fee == fee
    && p.address == w.address(pkh)
  }

  ghost predicate ManyOf(w: Wallet, cs: seq<Candidate>, k: int) {
    0 <= k < |w.keys| && |OfKey(cs, k)| >= 2
  }

  ghost predicate WorthOf(w: Wallet, cs: seq<Candidate>, fee: int, k: int) {
    0 <= k < |w.keys| && Worth(GroupFor(w, cs, k), fee)
  }

  ghost predicate Another(w: Wallet, cs: seq<Candidate>, fee: int, k: int) {
    exists j :: j != k && WorthOf(w, cs, fee, j)
  }

  method BuildCleanup(w: Wallet, outputs: seq<Output>, spendable: int, fee: int, excluded: set<OutPoint>)
    returns (res: Result<PreparedCleanup, Refusal>, ghost k: int)
    ensures res == Err(Inconsistent) <==>
      !WithinLimits(w.keys, outputs, spendable, fee, excluded) || !SnapshotOk(w.env, w.keys, outputs, spendable)
    ensures res.Ok? ==> Merges(w, Eligible(outputs, excluded), fee, k, res.value)
    ensures res.Ok? ==>
      (res.value.more <==> |res.value.selected| < |OfKey(Eligible(outputs, excluded), k)| || Another(w, Eligible(outputs, excluded), fee, k))
    ensures res == Err(NoneNeeded) ==> forall j :: !ManyOf(w, Eligible(outputs, excluded), j)
    ensures res == Err(TooSmall) ==>
      (exists j :: ManyOf(w, Eligible(outputs, excluded), j)) && (forall j :: !WorthOf(w, Eligible(outputs, excluded), fee, j))
    ensures res == Err(Oversized) ==>
      && FirstGroup(w, Eligible(outputs, excluded), fee, k)
      && var queue := Queue(Eligible(outputs, excluded), k);
         forall n :: 2 <= n <= 74 && n <= |queue| ==> Amounts(queue[..n]) <= fee
  {
    hide Eligible, OfKey, Amounts, Sort, SnapshotOk, Grouped, FirstGroup, Merges, Fits, MergeTx, GroupLe, Queue;
    k := 0;
    if !WithinLimits(w.keys, outputs, spendable, fee, excluded) {
      return Err(Inconsistent), k;
    }
    var scanned := ScanSnapshot(w.env, w.keys, outputs, spendable, excluded);
    if scanned.None? {
      return Err(Inconsistent), k;
    }
    ghost var cs := Eligible(outputs, excluded);
    SnapshotConsistent(w, outputs, spendable, excluded);
    var groups := GroupByKey(w, outputs, excluded);
    var eligible, multiple, listed := ListWorth(groups, fee);
    GroupsDecide(w, cs, groups, fee);
    if |eligible| == 0 {
      if multiple {
        return Err(TooSmall), k;
      }
      return Err(NoneNeeded), k;
    }
    var group := Sort(eligible, GroupLe)[0];
    k := group.key;
    FirstOfSorted(w, cs, groups, eligible, fee);
    var queue := Sort(group.candidates, SmallFirst);
    QueueFacts(w, cs, fee, k);
    var sums, minimum := PrefixSums(queue, fee);
    var least := MergeTx(w, group.pkh, queue, minimum, fee);
    FitsMeans(w, group.pkh, queue, minimum, fee);
    if |TxBytes(least)| > MAX_TX_BYTES {
      FitsBySize(w, group.pkh, queue, minimum, fee);
      return Err(Oversized), k;
    }
    var best, tx := LargestPrefix(w, group.pkh, queue, fee, minimum);
    PrefixWorth(queue, minimum, best);
    var selected := Ops(queue[..best]);
    var amount := sums[best] - fee;
    MergeOuts(w, group.pkh, queue, best, fee);
    var p := PreparedCleanup(tx, group.address, amount, fee, selected, best < |queue| || |eligible| > 1);
    MergesIntro(w, cs, fee, k, p, best);
    QueuePart(cs, k);
    FirstIsWorth(w, cs, fee, k);
    OthersListed(w, cs, fee, k, listed);
    return Ok(p), k;
  }

  lemma {:induction false} FirstIsWorth(w: Wallet, cs: seq<Candidate>, fee: int, k: int)
    requires FirstGroup(w, cs, fee, k)
    ensures WorthOf(w, cs, fee, k)
  {
    hide OfKey, Amounts;
  }

  /** More than one key is worthwhile exactly when some other one is. */
  lemma {:induction false} OthersListed(w: Wallet, cs: seq<Candidate>, fee: int, k: int, listed: seq<int>)
    requires WorthOf(w, cs, fee, k) && (forall i, j :: 0 <= i < j < |listed| ==> listed[i] != listed[j])
    requires forall j :: j in listed <==> WorthOf(w, cs, fee, j)
    ensures |listed| > 1 <==> Another(w, cs, fee, k)
  {
    hide WorthOf;
    if |listed| > 1 {
      assert WorthOf(w, cs, fee, if listed[0] != k then listed[0] else listed[1]);
    }
    if Another(w, cs, fee, k) {
      var j :| j != k && WorthOf(w, cs, fee, j);
      assert j in listed && k in listed;
    }
  }

  lemma {:induction false} SnapshotConsistent(w: Wallet, outputs: seq<Output>, spendable: int, excluded: set<OutPoint>)
    requires SnapshotOk(w.env, w.keys, outputs, spendable)
    ensures EveryConsistent(w.env, w.keys, outputs)
    ensures PositiveAmounts(Eligible(outputs, excluded)) && KeysIn(w.keys, Eligible(outputs, excluded))
    ensures |Eligible(outputs, excluded)| <= |outputs|
  {
    hide Eligible, Consistent, AllConsistent;
    ConsistentMeansEligible(w.env, w.keys, outputs, excluded);
    EligibleAllPositive(w.env, w.keys, outputs, excluded);
  }

  lemma {:induction false} OfKeyNone(cs: seq<Candidate>, keys: seq<Key>, k: int)
    requires KeysIn(keys, cs) && !(0 <= k < |keys|)
    ensures OfKey(cs, k) == []
  {
    if cs != [] {
      OfKeyNone(cs[..|cs| - 1], keys, k);
    }
  }

  /** The group table answers the questions asked of the candidates. */
  lemma {:induction false} GroupsDecide(w: Wallet, cs: seq<Candidate>, groups: map<int, Group>, fee: int)
    requires Grouped(w, cs, groups)
    ensures forall k :: WorthOf(w, cs, fee, k) <==> Contender(groups, fee, k)
    ensures forall k :: ManyOf(w, cs, k) <==> k in groups && |groups[k].candidates| >= 2
  {
    hide OfKey, Amounts;
    forall k ensures WorthOf(w, cs, fee, k) <==> Contender(groups, fee, k)
             ensures ManyOf(w, cs, k) <==> k in groups && |groups[k].candidates| >= 2 {
      assert k in groups <==> OfKey(cs, k) != [];
    }
  }

  lemma {:induction false} FirstOfSorted(w: Wallet, cs: seq<Candidate>, groups: map<int, Group>, eligible: seq<Group>, fee: int)
    requires Grouped(w, cs, groups) && |eligible| > 0
    requires forall g :: g in eligible ==> exists k :: Contender(groups, fee, k) && groups[k] == g
    requires forall k :: Contender(groups, fee, k) ==> groups[k] in eligible
    ensures var g := Sort(eligible, GroupLe)[0];
            FirstGroup(w, cs, fee, g.key) && g == GroupFor(w, cs, g.key)
  {
    hide OfKey, Amounts, Sort, GroupLe;
    var sorted := Sort(eligible, GroupLe);
    GroupOrder();
    SortSorted(eligible, GroupLe);
    SortPermutes(eligible, GroupLe);
    assert sorted[0] in multiset(sorted);
    var g := sorted[0];
    assert g in eligible;
    var k :| Contender(groups, fee, k) && groups[k] == g;
    GroupsDecide(w, cs, groups, fee);
    forall j | 0 <= j < |w.keys| && Worth(GroupFor(w, cs, j), fee) ensures GroupLe(g, GroupFor(w, cs, j)) {
      assert WorthOf(w, cs, fee, j);
      assert groups[j] in multiset(sorted);
      SortedHead(sorted, groups[j], GroupLe);
    }
  }

  lemma {:induction false} OfKeyPart(cs: seq<Candidate>, k: int)
    ensures multiset(OfKey(cs, k)) <= multiset(cs)
  {
    if cs != [] {
      OfKeyPart(cs[..|cs| - 1], k);
      assert cs == cs[..|cs| - 1] + [cs[|cs| - 1]];
    }
  }

  lemma {:induction false} QueuePart(cs: seq<Candidate>, k: int)
    ensures multiset(Queue(cs, k)) == multiset(OfKey(cs, k)) && multiset(Queue(cs, k)) <= multiset(cs)
    ensures |Queue(cs, k)| == |OfKey(cs, k)|
  {
    hide OfKey, Sort;
    OfKeyPart(cs, k);
    SortPermutes(OfKey(cs, k), SmallFirst);
  }

  lemma {:induction false} QueueFacts(w: Wallet, cs: seq<Candidate>, fee: int, k: int)
    requires PositiveAmounts(cs) && KeysIn(w.keys, cs) && FirstGroup(w, cs, fee, k)
    ensures var queue := Queue(cs, k);
            && queue == Sort(GroupFor(w, cs, k).candidates, SmallFirst)
            && 2 <= |queue| <= |cs| && Amounts(queue) > fee && PositiveAmounts(queue) && KeysIn(w.keys, queue)
  {
    hide OfKey, Sort, Amounts;
    var queue := Queue(cs, k);
    QueuePart(cs, k);
    forall i | 0 <= i < |queue| ensures 0 < queue[i].amount <= MAX_MONEY && 0 <= queue[i].key < |w.keys| {
      assert queue[i] in multiset(queue);
      assert queue[i] in cs;
    }
    PartAmounts(queue, OfKey(cs, k));
  }

  lemma {:induction false} PrefixWorth(queue: seq<Candidate>, a: nat, b: nat)
    requires PositiveAmounts(queue) && a <= b <= |queue|
    ensures Amounts(queue[..a]) <= Amounts(queue[..b])
  {
    AmountsGrow(queue, a, b);
  }

  lemma {:induction false} MergeOuts(w: Wallet, pkh: Pkh, cs: seq<Candidate>, n: nat, fee: int)
    requires n <= |cs|
    ensures MergeTx(w, pkh, cs, n, fee).outs == [TxOut(Amounts(cs[..n]) - fee, pkh)]
  {
    hide Amounts, Drafted, KeysFor;
  }

  lemma {:induction false} MergesIntro(w: Wallet, cs: seq<Candidate>, fee: int, k: int, p: PreparedCleanup, n: nat)
    requires FirstGroup(w, cs, fee, k)
    requires var queue, pkh := Queue(cs, k), w.env.pkhOf(w.keys[k].pub);
             && 2 <= n <= |queue| && Amounts(queue[..n]) > fee
             && Fits(w, pkh, queue, n, fee) && (forall m :: n < m <= |queue| ==> !Fits(w, pkh, queue, m, fee))
             && p.tx == MergeTx(w, pkh, queue, n, fee) && p.tx.outs == [TxOut(p.amount, pkh)]
             && p.selected == Ops(queue[..n]) && p.amount == Amounts(queue[..n]) - fee && p.fee == fee
             && p.address == w.address(pkh)
    ensures Merges(w, cs, fee, k, p)
  {
    hide FirstGroup, Fits, MergeTx, Amounts, Queue;
  }

  /** In numbers: a cleanup merges all of the key's eligible outputs, or the 74 smallest of them. */
  lemma {:induction false} CleanupCount(w: Wallet, cs: seq<Candidate>, fee: int, k: int, p: PreparedCleanup)
    requires KeysIn(w.keys, cs) && PositiveAmounts(cs) && Merges(w, cs, fee, k, p)
    ensures |p.selected| == if |OfKey(cs, k)| <= 74 then |OfKey(cs, k)| else 74
  {
    hide OfKey, Sort, Amounts, Fits, MergeTx, GroupLe;
    QueuePart(cs, k);
    QueueFacts(w, cs, fee, k);
    var queue, n, pkh := Queue(cs, k), |p.selected|, w.env.pkhOf(w.keys[k].pub);
    FitsBySize(w, pkh, queue, n, fee);
    if n < |queue| && n < 74 {
      FitsBySize(w, pkh, queue, n + 1, fee);
    }
  }

  // ---- what a cleanup is ----

  lemma {:induction false} OfKeyMember(cs: seq<Candidate>, k: int, c: Candidate)
    ensures c in OfKey(cs, k) <==> c in cs && c.key == k
  {
    if cs != [] {
      OfKeyMember(cs[..|cs| - 1], k, c);
      assert cs == cs[..|cs| - 1] + [cs[|cs| - 1]];
    }
  }

  lemma {:induction false} MergeParts(w: Wallet, pkh: Pkh, cs: seq<Candidate>, n: nat, fee: int, k: int)
    requires n <= |cs| && 0 <= k < |w.keys| && (forall i :: 0 <= i < n ==> cs[i].key == k)
    ensures var tx := MergeTx(w, pkh, cs, n, fee);
            && tx.outs == [TxOut(Amounts(cs[..n]) - fee, pkh)] && |tx.ins| == n
            && (forall i :: 0 <= i < n ==> tx.ins[i].prev == cs[i].op && tx.ins[i].pubKey == w.keys[k].pub)
  {
    hide Amounts, SignedTx, Drafted, KeysFor;
  }

  lemma {:induction false} QueueMembers(cs: seq<Candidate>, k: int)
    ensures forall i :: 0 <= i < |Queue(cs, k)| ==> Queue(cs, k)[i] in cs && Queue(cs, k)[i].key == k
  {
    hide OfKey, Queue;
    QueuePart(cs, k);
    var queue := Queue(cs, k);
    forall i | 0 <= i < |queue| ensures queue[i] in cs && queue[i].key == k {
      assert queue[i] in multiset(queue);
      OfKeyMember(cs, k, queue[i]);
    }
  }

  lemma {:induction false} MergesParts(w: Wallet, cs: seq<Candidate>, fee: int, k: int, p: PreparedCleanup)
    requires Merges(w, cs, fee, k, p)
    ensures 0 <= k < |w.keys| && 2 <= |p.selected| <= |Queue(cs, k)|
    ensures p.tx == MergeTx(w, w.env.pkhOf(w.keys[k].pub), Queue(cs, k), |p.selected|, fee)
    ensures p.selected == Ops(Queue(cs, k)[..|p.selected|])
    ensures p.amount == Amounts(Queue(cs, k)[..|p.selected|]) - fee > 0
    ensures p.fee == fee && p.address == w.address(w.env.pkhOf(w.keys[k].pub))
  {
    hide OfKey, Amounts, Queue, MergeTx, Ops;
  }

  /** A cleanup spends only eligible outputs of one key and pays them, less the fee, in one output back to that key. */
  lemma {:induction false} CleanupMeans(w: Wallet, cs: seq<Candidate>, fee: int, k: int, p: PreparedCleanup)
    requires Merges(w, cs, fee, k, p)
    ensures 0 <= k < |w.keys| && 2 <= |p.selected| <= |Queue(cs, k)|
    ensures var merged, home := Queue(cs, k)[..|p.selected|], w.env.pkhOf(w.keys[k].pub);
            && p.tx.outs == [TxOut(Amounts(merged) - fee, home)] && p.amount == Amounts(merged) - fee > 0
            && p.fee == fee && p.address == w.address(home)
            && |p.tx.ins| == |merged|
            && (forall i :: 0 <= i < |merged| ==>
                  && p.tx.ins[i].prev == p.selected[i] == merged[i].op && p.tx.ins[i].pubKey == w.keys[k].pub
                  && merged[i] in cs && merged[i].key == k)
  {
    hide OfKey, Amounts, Queue, MergeTx, Merges;
    MergesParts(w, cs, fee, k, p);
    QueueMembers(cs, k);
    MergeParts(w, w.env.pkhOf(w.keys[k].pub), Queue(cs, k), |p.selected|, fee, k);
  }

  /** The outputs taken and those left are together the key's eligible outputs, and none left is smaller than one taken. */
  lemma {:induction false} SmallestMerged(cs: seq<Candidate>, k: int, n: nat)
    requires n <= |Queue(cs, k)|
    ensures var merged, left := Queue(cs, k)[..n], Queue(cs, k)[n..];
            && multiset(merged) + multiset(left) == multiset(OfKey(cs, k))
            && (forall i, j :: 0 <= i < |merged| && 0 <= j < |left| ==> merged[i].amount <= left[j].amount)
  {
    hide OfKey, Queue;
    var queue := Queue(cs, k);
    QueuePart(cs, k);
    QueueOrdered(cs, k);
    assert queue == queue[..n] + queue[n..];
  }

  /** No key with two or more eligible outputs worth more than the fee has more of them than the one merged, or as many under a
      lesser address. */
  lemma {:induction false} BusiestKey(w: Wallet, cs: seq<Candidate>, fee: int, k: int, p: PreparedCleanup, j: int)
    requires Merges(w, cs, fee, k, p)
    requires 0 <= j < |w.keys| && |OfKey(cs, j)| >= 2 && Amounts(OfKey(cs, j)) > fee
    ensures 0 <= k < |w.keys|
    ensures || |OfKey(cs, j)| < |OfKey(cs, k)|
            || (|OfKey(cs, j)| == |OfKey(cs, k)| && LexLe(w.address(w.env.pkhOf(w.keys[k].pub)), w.address(w.env.pkhOf(w.keys[j].pub))))
  {
    hide OfKey, Amounts, Queue, MergeTx, Ops, Fits, LexLe;
    assert FirstGroup(w, cs, fee, k);
    assert Worth(GroupFor(w, cs, j), fee);
  }

  lemma {:induction false} QueueOrdered(cs: seq<Candidate>, k: int)
    ensures forall i, j :: 0 <= i < j < |Queue(cs, k)| ==> Queue(cs, k)[i].amount <= Queue(cs, k)[j].amount
  {
    hide OfKey, Sort;
    SmallFirstOrder();
    SortSorted(OfKey(cs, k), SmallFirst);
    forall i, j | 0 <= i < j < |Queue(cs, k)| ensures Queue(cs, k)[i].amount <= Queue(cs, k)[j].amount {
      assert SmallFirst(Queue(cs, k)[i], Queue(cs, k)[j]);
    }
  }
}
