/** The median-time-past rule (core/chain.go, `checkBlockTimestamp`). */
module MedianTime {
  import opened Types
  import opened Params
  import opened Sorting

  function Leq(): (int, int) -> bool {
    (x: int, y: int) => x <= y
  }

  /** Upper median: the element at index len/2 once sorted. */
  function Median(ts: seq<int>): int
    requires |ts| > 0
  {
    Sort(ts, Leq())[|ts| / 2]
  }

  /** Times of the last `n` headers of a branch, or of all of them near genesis. */
  function Window(times: seq<int>, n: nat): seq<int> {
    if |times| <= n then times else times[|times| - n..]
  }

  function MedianTimePast(times: seq<int>, n: nat): int
    requires |times| > 0 && n > 0
  {
    Median(Window(times, n))
  }

  // ---- the median by counting ----

  function CountGe(ts: seq<int>, m: int): nat {
    if ts == [] then 0 else (if ts[0] >= m then 1 else 0) + CountGe(ts[1..], m)
  }

  lemma {:induction false} CountConcat(a: seq<int>, b: seq<int>, m: int)
    ensures CountGe(a + b, m) == CountGe(a, m) + CountGe(b, m)
  {
    if a == [] {
      assert a + b == b;
    } else {
      CountConcat(a[1..], b, m);
      assert (a + b)[1..] == a[1..] + b;
    }
  }

  lemma {:induction false} CountExtreme(ts: seq<int>, m: int)
    ensures CountGe(ts, m) <= |ts|
    ensures (forall i :: 0 <= i < |ts| ==> ts[i] >= m) ==> CountGe(ts, m) == |ts|
    ensures (forall i :: 0 <= i < |ts| ==> ts[i] < m) ==> CountGe(ts, m) == 0
  {
    if ts != [] {
      CountExtreme(ts[1..], m);
    }
  }

  lemma {:induction false} CountInsert(x: int, s: seq<int>, m: int)
    ensures CountGe(Insert(x, s, Leq()), m) == CountGe(s, m) + (if x >= m then 1 else 0)
  {
    if s == [] {
      assert Insert(x, s, Leq()) == [x] && [x][1..] == [];
    } else if x <= s[0] {
      assert ([x] + s)[1..] == s;
    } else {
      CountInsert(x, s[1..], m);
      var t := Insert(x, s[1..], Leq());
      assert ([s[0]] + t)[1..] == t;
    }
  }

  lemma {:induction false} CountSort(s: seq<int>, m: int)
    ensures CountGe(Sort(s, Leq()), m) == CountGe(s, m)
  {
    if s != [] {
      CountSort(s[1..], m);
      CountInsert(s[0], Sort(s[1..], Leq()), m);
    }
  }

  lemma {:induction false} HighFromMiddle(q: seq<int>, k: nat, m: int)
    requires k < |q| && Sorted(q, Leq()) && q[k] >= m
    ensures CountGe(q, m) >= |q| - k
  {
    var a, b := q[..k], q[k..];
    assert q == a + b;
    CountConcat(a, b, m);
    forall i | 0 <= i < |b| ensures b[i] >= m {
      assert i > 0 ==> Leq()(q[k], q[k + i]);
    }
    CountExtreme(b, m);
  }

  lemma {:induction false} LowToMiddle(q: seq<int>, k: nat, m: int)
    requires k < |q| && Sorted(q, Leq()) && q[k] < m
    ensures CountGe(q, m) < |q| - k
  {
    var a, b := q[..k + 1], q[k + 1..];
    assert q == a + b;
    CountConcat(a, b, m);
    forall i | 0 <= i < |a| ensures a[i] < m {
      assert i < k ==> Leq()(q[i], q[k]);
    }
    CountExtreme(a, m);
    CountExtreme(b, m);
  }

  /** The median is at least `m` exactly when enough elements are. */
  lemma {:induction false} MedianByCount(ts: seq<int>, m: int)
    requires |ts| > 0
    ensures Median(ts) >= m <==> CountGe(ts, m) >= |ts| - |ts| / 2
  {
    var q, k := Sort(ts, Leq()), |ts| / 2;
    SortSorted(ts, Leq());
    CountSort(ts, m);
    if q[k] >= m {
      HighFromMiddle(q, k, m);
    } else {
      LowToMiddle(q, k, m);
    }
  }

  /** A block later than the median of its past cannot lower the median of the window that includes it,
      whether the window slides (odd length) or is still growing. */
  lemma {:induction false} MedianNeverDecreases(times: seq<int>, t: int, n: nat)
    requires |times| > 0 && n % 2 == 1
    requires t > MedianTimePast(times, n)
    ensures MedianTimePast(times + [t], n) >= MedianTimePast(times, n)
  {
    hide Median;
    var w, w' := Window(times, n), Window(times + [t], n);
    var m := Median(w);
    MedianByCount(w, m);
    assert [t][1..] == [];
    assert CountGe([t], m) == 1;
    if |times| < n {
      assert w' == w + [t];
      CountConcat(w, [t], m);
    } else {
      assert w == [w[0]] + w[1..];
      assert w' == w[1..] + [t];
      CountConcat(w[1..], [t], m);
    }
    MedianByCount(w', m);
  }

  // ---- the timestamp rule ----

  /** `checkBlockTimestamp` accepts a block of time `t` on a branch whose headers have these times. */
  predicate TimestampOk(p: Params, times: seq<int>, t: int, now: int)
    requires |times| > 0 && ValidConsensusParams(p)
  {
    if !AsertActive(p, |times|) then
      t <= now + p.futureDrift && t >= times[|times| - 1] - p.futureDrift
    else
      t <= now + p.asertFutureDrift && t > MedianTimePast(times, p.asertMedianTimeBlocks)
  }

  /** A block accepted by one clock is accepted by any later clock. */
  lemma {:induction false} LaterClock(p: Params, times: seq<int>, t: int, now: int, now': int)
    requires |times| > 0 && ValidConsensusParams(p) && now <= now'
    ensures TimestampOk(p, times, t, now) ==> TimestampOk(p, times, t, now')
  {
  }

  /** Every block above genesis passed the rule under some clock. */
  ghost predicate AcceptedTimes(p: Params, times: seq<int>)
    requires ValidConsensusParams(p)
  {
    forall i :: 0 < i < |times| ==> AcceptedAt(p, times, i)
  }

  ghost predicate AcceptedAt(p: Params, times: seq<int>, i: nat)
    requires ValidConsensusParams(p) && 0 < i < |times|
  {
    exists now :: TimestampOk(p, times[..i], times[i], now)
  }

  lemma {:induction false} MedianStep(p: Params, times: seq<int>, i: nat)
    requires ValidConsensusParams(p) && 0 < i < |times| && AsertActive(p, i) && AcceptedAt(p, times, i)
    ensures PastMedian(p, times, i) <= PastMedian(p, times, i + 1)
    ensures times[i] > PastMedian(p, times, i)
  {
    hide MedianTimePast;
    var now :| TimestampOk(p, times[..i], times[i], now);
    MedianNeverDecreases(times[..i], times[i], p.asertMedianTimeBlocks);
    assert times[..i + 1] == times[..i] + [times[i]];
  }

  ghost function PastMedian(p: Params, times: seq<int>, i: nat): int
    requires ValidConsensusParams(p) && p.asertActivationHeight > 0 && 0 < i <= |times|
  {
    MedianTimePast(times[..i], p.asertMedianTimeBlocks)
  }

  lemma {:induction false} StepsCompose(g: seq<int>, i: nat, j: nat)
    requires i <= j < |g|
    requires forall k :: i <= k < j ==> g[k] <= g[k + 1]
    ensures g[i] <= g[j]
  {
    if i < j {
      StepsCompose(g, i, j - 1);
    }
  }

  /** Along any accepted branch the median time past never decreases once ASERT is active. */
  lemma {:induction false} MedianMonotoneOnBranch(p: Params, times: seq<int>, i: nat, j: nat)
    requires ValidConsensusParams(p) && p.asertActivationHeight > 0
    requires AcceptedTimes(p, times)
    requires p.asertActivationHeight <= i <= j <= |times|
    ensures PastMedian(p, times, i) <= PastMedian(p, times, j)
  {
    hide PastMedian, AcceptedAt;
    var g := seq(|times| + 1, k requires 0 <= k <= |times| => if k == 0 then 0 else PastMedian(p, times, k));
    forall k | i <= k < j ensures g[k] <= g[k + 1] {
      MedianStep(p, times, k);
    }
    StepsCompose(g, i, j);
  }

  lemma {:induction false} ReversedMultiset(a: seq<int>, b: seq<int>)
    requires |a| == |b|
    requires forall i :: 0 <= i < |a| ==> a[i] == b[|b| - 1 - i]
    ensures multiset(a) == multiset(b)
  {
    if a != [] {
      var n := |a|;
      assert a == [a[0]] + a[1..] && b == b[..n - 1] + [b[n - 1]];
      ReversedMultiset(a[1..], b[..n - 1]);
    }
  }

  lemma {:induction false} ReversedSorts(a: seq<int>, b: seq<int>)
    requires |a| == |b|
    requires forall i :: 0 <= i < |a| ==> a[i] == b[|b| - 1 - i]
    ensures Sort(a, Leq()) == Sort(b, Leq())
  {
    ReversedMultiset(a, b);
    SortSorted(a, Leq());
    SortSorted(b, Leq());
    SortPermutes(a, Leq());
    SortPermutes(b, Leq());
    SortedUnique(Sort(a, Leq()), Sort(b, Leq()), Leq());
  }
}
