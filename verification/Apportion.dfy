/** Largest-remainder division of a coinbase reward among payout addresses (pool/pplns.go). */
module Apportion {
  import opened Types
  import opened Bits
  import opened Money
  import opened Sorting
  import opened Order

  type Weights = map<string, nat>

  // ---- sums over a listing of addresses ----

  function Sum(keys: seq<string>, f: string -> int): int {
    if keys == [] then 0 else f(keys[0]) + Sum(keys[1..], f)
  }

  lemma {:induction false} SumInsert(x: string, s: seq<string>, le: (string, string) -> bool, f: string -> int)
    ensures Sum(Insert(x, s, le), f) == f(x) + Sum(s, f)
  {
    if s == [] {
      assert [x][1..] == [];
    } else if le(x, s[0]) {
      assert ([x] + s)[1..] == s;
    } else {
      SumInsert(x, s[1..], le, f);
      var t := Insert(x, s[1..], le);
      assert ([s[0]] + t)[1..] == t;
    }
  }

  lemma {:induction false} SumSort(s: seq<string>, le: (string, string) -> bool, f: string -> int)
    ensures Sum(Sort(s, le), f) == Sum(s, f)
  {
    if s != [] {
      SumSort(s[1..], le, f);
      SumInsert(s[0], Sort(s[1..], le), le, f);
    }
  }

  /** A sum does not depend on the order of the listing. */
  lemma {:induction false} SumAnyOrder(a: seq<string>, b: seq<string>, f: string -> int)
    requires multiset(a) == multiset(b)
    ensures Sum(a, f) == Sum(b, f)
  {
    SumSort(a, LexLe, f);
    SumSort(b, LexLe, f);
    SortAnyOrder(a, b);
  }

  lemma {:induction false} SortAnyOrder(a: seq<string>, b: seq<string>)
    requires multiset(a) == multiset(b)
    ensures Sort(a, LexLe) == Sort(b, LexLe)
  {
    LexIsTotalOrder();
    SortSorted(a, LexLe);
    SortSorted(b, LexLe);
    SortPermutes(a, LexLe);
    SortPermutes(b, LexLe);
    SortedUnique(Sort(a, LexLe), Sort(b, LexLe), LexLe);
  }

  lemma {:induction false} SumConcat(a: seq<string>, b: seq<string>, f: string -> int)
    ensures Sum(a + b, f) == Sum(a, f) + Sum(b, f)
  {
    if a == [] {
      assert a + b == b;
    } else {
      SumConcat(a[1..], b, f);
      assert (a + b)[1..] == a[1..] + b;
    }
  }

  // ---- one division ----

  /** A reward to be split in proportion to work. */
  datatype Split = Split(weights: Weights, reward: nat, total: nat)
  {
    function Work(a: string): nat {
      WorkOf(weights, a)
    }

    function Exact(a: string): nat {
      MulNonneg(reward, Work(a));
      reward * Work(a)
    }

    /** Whole units due to an address. */
    function Quota(a: string): nat
      requires total > 0
    {
      DivNonneg(Exact(a), total);
      Exact(a) / total
    }

    /** What the whole units leave over, in units of 1/total. */
    function Rest(a: string): nat
      requires total > 0
    {
      Exact(a) % total
    }
  }

  function WorkOf(weights: Weights, a: string): nat {
    if a in weights then weights[a] else 0
  }

  function WorkFn(weights: Weights): string -> int {
    (a: string) => WorkOf(weights, a)
  }

  function ExactFn(d: Split): string -> int {
    (a: string) => d.Exact(a)
  }

  function QuotaFn(d: Split): string -> int
    requires d.total > 0
  {
    (a: string) => d.Quota(a)
  }

  function RestFn(d: Split): string -> int
    requires d.total > 0
  {
    (a: string) => d.Rest(a)
  }

  lemma {:induction false} QuotaRest(d: Split, a: string)
    requires d.total > 0
    ensures d.Exact(a) == d.Quota(a) * d.total + d.Rest(a) && 0 <= d.Rest(a) < d.total
  {
    hide *;
    DivModIdentity(d.Exact(a), d.total);
    SplitParts(d, a);
  }

  lemma {:induction false} SplitParts(d: Split, a: string)
    requires d.total > 0
    ensures d.Quota(a) == d.Exact(a) / d.total && d.Rest(a) == d.Exact(a) % d.total
  {
  }

  lemma {:induction false} DivModIdentity(x: nat, t: nat)
    requires t > 0
    ensures x == (x / t) * t + x % t && 0 <= x % t < t
  {
  }

  lemma {:induction false} ExactSum(d: Split, keys: seq<string>)
    ensures Sum(keys, ExactFn(d)) == d.reward * Sum(keys, WorkFn(d.weights))
  {
    if keys != [] {
      ExactSum(d, keys[1..]);
      Distribute(d.reward, d.Work(keys[0]), Sum(keys[1..], WorkFn(d.weights)));
    }
  }

  lemma {:induction false} Distribute(a: int, b: int, c: int)
    ensures a * (b + c) == a * b + a * c
  {
  }

  lemma {:induction false} QuotaRestSum(d: Split, keys: seq<string>)
    requires d.total > 0
    ensures Sum(keys, ExactFn(d)) == Sum(keys, QuotaFn(d)) * d.total + Sum(keys, RestFn(d))
  {
    hide Split.Quota, Split.Rest, Split.Exact;
    if keys != [] {
      QuotaRestSum(d, keys[1..]);
      QuotaRest(d, keys[0]);
      Distribute(d.total, d.Quota(keys[0]), Sum(keys[1..], QuotaFn(d)));
    }
  }

  lemma {:induction false} RestBounds(d: Split, keys: seq<string>)
    requires d.total > 0
    ensures 0 <= Sum(keys, RestFn(d)) <= |keys| * (d.total - 1)
  {
    hide Split.Quota, Split.Rest, Split.Exact;
    if keys != [] {
      RestBounds(d, keys[1..]);
      QuotaRest(d, keys[0]);
      MulSucc(|keys| - 1, d.total - 1);
    }
  }

  function Leftover(d: Split, keys: seq<string>): int
    requires d.total > 0
  {
    d.reward - Sum(keys, QuotaFn(d))
  }

  /** The remainders add up to the leftover units. */
  lemma {:induction false} RestsMakeLeftover(d: Split, keys: seq<string>)
    requires d.total > 0 && d.total == Sum(keys, WorkFn(d.weights))
    ensures Sum(keys, RestFn(d)) == Leftover(d, keys) * d.total
  {
    hide Split.Quota, Split.Rest, Split.Exact, Sum;
    ExactSum(d, keys);
    QuotaRestSum(d, keys);
    Difference(d.reward, Sum(keys, QuotaFn(d)), d.total);
  }

  lemma {:induction false} Difference(a: int, b: int, c: int)
    ensures (a - b) * c == a * c - b * c
  {
  }

  /** Strictly fewer leftover units than addresses. */
  lemma {:induction false} LeftoverBounds(d: Split, keys: seq<string>)
    requires d.total > 0 && d.total == Sum(keys, WorkFn(d.weights)) && |keys| > 0
    ensures 0 <= Leftover(d, keys) < |keys|
  {
    hide Split.Quota, Split.Rest, Split.Exact, Sum, Leftover;
    RestsMakeLeftover(d, keys);
    RestBounds(d, keys);
    LeftoverArith(Leftover(d, keys), d.total, |keys|);
  }

  lemma {:induction false} LeftoverArith(l: int, t: int, n: int)
    requires t > 0 && n > 0 && 0 <= l * t <= n * (t - 1)
    ensures 0 <= l < n
  {
    if l < 0 {
      MulMono(l, -1, t);
    }
    if l >= n {
      MulMono(n, l, t);
    }
  }

  // ---- handing out the leftover units ----

  /** Largest remainder first, address as the tie-breaker. */
  function RankLe(d: Split): (string, string) -> bool
    requires d.total > 0
  {
    (a: string, b: string) => d.Rest(a) > d.Rest(b) || (d.Rest(a) == d.Rest(b) && LexLe(a, b))
  }

  lemma {:induction false} RankIsTotalOrder(d: Split)
    requires d.total > 0
    ensures TotalPreorder(RankLe(d)) && Antisymmetric(RankLe(d))
  {
    hide Split.Rest, LexLe;
    LexIsTotalOrder();
  }

  function Ranked(d: Split, keys: seq<string>): (r: seq<string>)
    requires d.total > 0
    ensures |r| == |keys|
  {
    Sort(keys, RankLe(d))
  }

  ghost predicate Distinct(keys: seq<string>) {
    forall a :: multiset(keys)[a] <= 1
  }

  /** Everything one division needs: distinct addresses whose work adds up to a positive total. */
  ghost predicate Ready(d: Split, keys: seq<string>) {
    |keys| > 0 && Distinct(keys) && d.total > 0 && d.total == Sum(keys, WorkFn(d.weights))
  }

  /** The addresses that receive one extra unit. */
  ghost function Winners(d: Split, keys: seq<string>): seq<string>
    requires Ready(d, keys)
  {
    LeftoverBounds(d, keys);
    Ranked(d, keys)[..Leftover(d, keys)]
  }

  ghost function Share(d: Split, keys: seq<string>, a: string): nat
    requires Ready(d, keys)
  {
    d.Quota(a) + (if a in Winners(d, keys) then 1 else 0)
  }

  ghost function ShareFn(d: Split, keys: seq<string>): string -> int
    requires Ready(d, keys)
  {
    (a: string) => Share(d, keys, a)
  }

  lemma {:induction false} RankedFacts(d: Split, keys: seq<string>)
    requires d.total > 0
    ensures Sorted(Ranked(d, keys), RankLe(d)) && multiset(Ranked(d, keys)) == multiset(keys)
    ensures Sum(Ranked(d, keys), RestFn(d)) == Sum(keys, RestFn(d))
    ensures Sum(Ranked(d, keys), QuotaFn(d)) == Sum(keys, QuotaFn(d))
  {
    hide Split.Rest, Split.Quota, RankLe, Sum;
    RankIsTotalOrder(d);
    SortSorted(keys, RankLe(d));
    SortPermutes(keys, RankLe(d));
    SumSort(keys, RankLe(d), RestFn(d));
    SumSort(keys, RankLe(d), QuotaFn(d));
  }

  lemma {:induction false} RestsVanish(d: Split, keys: seq<string>)
    requires d.total > 0 && (forall i :: 0 <= i < |keys| ==> d.Rest(keys[i]) == 0)
    ensures Sum(keys, RestFn(d)) == 0
  {
    hide Split.Rest;
    if keys != [] {
      RestsVanish(d, keys[1..]);
    }
  }

  /** Only addresses with a fractional claim get an extra unit. */
  lemma {:induction false} WinnersHaveRemainders(d: Split, keys: seq<string>, i: nat)
    requires Ready(d, keys) && i < |Winners(d, keys)|
    ensures d.Rest(Winners(d, keys)[i]) > 0
  {
    hide Split.Rest, Split.Quota, Sum, Leftover, Distinct, Ranked;
    var ranked, l := Ranked(d, keys), Leftover(d, keys);
    RankedFacts(d, keys);
    LeftoverBounds(d, keys);
    RestsMakeLeftover(d, keys);
    if d.Rest(ranked[i]) == 0 {
      var head, tail := ranked[..i], ranked[i..];
      assert ranked == head + tail;
      forall j | 0 <= j < |tail| ensures d.Rest(tail[j]) == 0 {
        assert tail[j] == ranked[i + j];
        assert j > 0 ==> RankLe(d)(ranked[i], ranked[i + j]);
      }
      RestsVanish(d, tail);
      RestBounds(d, head);
      SumConcat(head, tail, RestFn(d));
      TooFewRests(l, i, d.total);
    }
  }

  lemma {:induction false} TooFewRests(l: int, i: int, t: int)
    requires 0 <= i < l && t > 0
    ensures l * t > i * (t - 1)
  {
    MulMono(i + 1, l, t);
    MulSucc(i, t);
    Difference(t, 1, i);
  }

  lemma {:induction false} ShareSumPart(d: Split, keys: seq<string>, part: seq<string>, bonus: nat)
    requires Ready(d, keys) && bonus <= 1
    requires forall i :: 0 <= i < |part| ==> (part[i] in Winners(d, keys) <==> bonus == 1)
    ensures Sum(part, ShareFn(d, keys)) == Sum(part, QuotaFn(d)) + bonus * |part|
  {
    hide Split.Quota, Winners, Ready;
    if part != [] {
      ShareSumPart(d, keys, part[1..], bonus);
    }
  }

  /** The shares exhaust the reward exactly. */
  lemma {:induction false} SharesSumToReward(d: Split, keys: seq<string>)
    requires Ready(d, keys)
    ensures Sum(keys, ShareFn(d, keys)) == d.reward
  {
    hide Split.Quota, Sum, Leftover, RankLe, Ranked, Distinct, Share, ShareFn;
    var ranked, l := Ranked(d, keys), Leftover(d, keys);
    RankedFacts(d, keys);
    LeftoverBounds(d, keys);
    var head, tail := ranked[..l], ranked[l..];
    assert ranked == head + tail;
    assert multiset(ranked) == multiset(head) + multiset(tail);
    DisjointParts(keys, head, tail);
    ShareSumPart(d, keys, head, 1);
    ShareSumPart(d, keys, tail, 0);
    SumConcat(head, tail, ShareFn(d, keys));
    SumConcat(head, tail, QuotaFn(d));
    SumAnyOrder(keys, ranked, ShareFn(d, keys));
    QuotaPlusLeftover(d, keys);
  }

  lemma {:induction false} QuotaPlusLeftover(d: Split, keys: seq<string>)
    requires d.total > 0
    ensures Sum(keys, QuotaFn(d)) + Leftover(d, keys) == d.reward
  {
    hide Sum, Split.Quota;
  }

  lemma {:induction false} DisjointParts(keys: seq<string>, head: seq<string>, tail: seq<string>)
    requires Distinct(keys) && multiset(keys) == multiset(head) + multiset(tail)
    ensures forall i :: 0 <= i < |tail| ==> tail[i] !in head
    ensures forall i :: 0 <= i < |head| ==> head[i] in head
  {
    forall i | 0 <= i < |tail| ensures tail[i] !in head {
      assert multiset(keys)[tail[i]] <= 1;
      assert multiset(tail)[tail[i]] >= 1;
    }
  }

  /** Each address receives the floor or the ceiling of its exact share, never anything else. */
  lemma {:induction false} FloorOrCeiling(d: Split, keys: seq<string>, a: string)
    requires Ready(d, keys) && a in keys
    ensures d.Exact(a) - d.total < Share(d, keys, a) * d.total < d.Exact(a) + d.total
  {
    hide Split.Quota, Split.Rest, Split.Exact, Distinct, Sum, Winners;
    QuotaRest(d, a);
    MulSucc(d.Quota(a), d.total);
    if a in Winners(d, keys) {
      var i :| 0 <= i < |Winners(d, keys)| && Winners(d, keys)[i] == a;
      WinnersHaveRemainders(d, keys, i);
    }
  }
}
