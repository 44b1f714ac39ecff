/** Choosing the inputs of a payment (wallet/wallet.go). */
module Selection {
  import opened Types
  import opened Bits
  import opened Money
  import opened Sorting

  const MAX_CANDIDATES := 10_000
  const MAX_INPUTS := 10_000

  datatype Candidate = Candidate(op: OutPoint, amount: int, key: int)

  /** Comparing byte strings of one length is comparing them as big-endian numbers. */
  function BigEndian(b: seq<Byte>): nat {
    if b == [] then 0 else 256 * BigEndian(b[..|b| - 1]) + b[|b| - 1]
  }

  /** Larger amount first, then outpoint order. */
  predicate Better(x: Candidate, y: Candidate) {
    if x.amount != y.amount then x.amount > y.amount
    else if BigEndian(x.op.txId) != BigEndian(y.op.txId) then BigEndian(x.op.txId) < BigEndian(y.op.txId)
    else x.op.idx < y.op.idx
  }

  predicate BetterLe(x: Candidate, y: Candidate) {
    !Better(y, x)
  }

  lemma {:induction false} BetterIsOrder()
    ensures TotalPreorder(BetterLe)
  {
    hide BigEndian;
  }

  function Amounts(cs: seq<Candidate>): int {
    if cs == [] then 0 else cs[0].amount + Amounts(cs[1..])
  }

  // ---- the best candidates ----

  /** Insert behind everything at least as good. */
  function Place(x: Candidate, s: seq<Candidate>): (r: seq<Candidate>)
    ensures |r| == |s| + 1
  {
    if s == [] then [x]
    else if Better(x, s[0]) then [x] + s
    else [s[0]] + Place(x, s[1..])
  }

  lemma {:induction false} PlacePermutes(x: Candidate, s: seq<Candidate>)
    ensures multiset(Place(x, s)) == multiset{x} + multiset(s)
  {
    hide Better;
    if s != [] && !Better(x, s[0]) {
      PlacePermutes(x, s[1..]);
      assert s == [s[0]] + s[1..];
    }
  }

  lemma {:induction false} PlaceSorted(x: Candidate, s: seq<Candidate>)
    requires Sorted(s, BetterLe)
    ensures Sorted(Place(x, s), BetterLe)
  {
    hide Better;
    BetterIsOrder();
    if s == [] {
    } else if Better(x, s[0]) {
      FirstSorted(x, s);
    } else {
      var t := Place(x, s[1..]);
      PlaceSorted(x, s[1..]);
      PlacePermutes(x, s[1..]);
      forall i | 0 <= i < |t| ensures BetterLe(s[0], t[i]) {
        assert t[i] in multiset(t);
        if t[i] != x {
          assert t[i] in s[1..];
        }
      }
    }
  }

  lemma {:induction false} FirstSorted(x: Candidate, s: seq<Candidate>)
    requires Sorted(s, BetterLe) && s != [] && Better(x, s[0])
    ensures Sorted([x] + s, BetterLe) && Better(x, s[|s| - 1])
  {
    hide BigEndian;
    forall i | 0 <= i < |s| ensures Better(x, s[i]) {
      assert i > 0 ==> BetterLe(s[0], s[i]);
    }
  }

  /** All candidates, best first. */
  function Ranked(cs: seq<Candidate>): (r: seq<Candidate>)
    ensures |r| == |cs|
  {
    if cs == [] then [] else Place(cs[|cs| - 1], Ranked(cs[..|cs| - 1]))
  }

  lemma {:induction false} RankedFacts(cs: seq<Candidate>)
    ensures Sorted(Ranked(cs), BetterLe) && multiset(Ranked(cs)) == multiset(cs)
  {
    hide BetterLe, Sorted, Place;
    if cs == [] {
      NothingSorted();
    } else {
      var init, last := cs[..|cs| - 1], cs[|cs| - 1];
      RankedFacts(init);
      PlaceSorted(last, Ranked(init));
      PlacePermutes(last, Ranked(init));
      assert cs == init + [last];
    }
  }

  lemma {:induction false} NothingSorted()
    ensures Sorted([], BetterLe)
  {
  }

  function Top(cs: seq<Candidate>, k: nat): seq<Candidate> {
    if |cs| <= k then cs else cs[..k]
  }

  /** One step of the bounded heap: its root is the worst candidate kept. */
  function Offer(kept: seq<Candidate>, x: Candidate, k: nat): seq<Candidate> {
    if |kept| < k then Place(x, kept)
    else if kept != [] && Better(x, kept[|kept| - 1]) then Place(x, kept[..|kept| - 1])
    else kept
  }

  lemma {:induction false} TailSorted(s: seq<Candidate>)
    requires Sorted(s, BetterLe) && s != []
    ensures Sorted(s[1..], BetterLe)
  {
    hide BetterLe;
  }

  /** Keeping the best `k` of the candidates seen so far loses nothing. */
  lemma {:induction false} PlaceTop(s: seq<Candidate>, x: Candidate, k: nat)
    requires Sorted(s, BetterLe)
    ensures Top(Place(x, s), k) == Offer(Top(s, k), x, k)
    decreases |s|
  {
    hide Better;
    if |s| < k || k == 0 {
    } else if Better(x, s[0]) {
      PlaceFirst(s, x, k);
    } else {
      TailSorted(s);
      PlaceTop(s[1..], x, k - 1);
      PlaceLater(s, x, k);
    }
  }

  lemma {:induction false} PlaceFirst(s: seq<Candidate>, x: Candidate, k: nat)
    requires Sorted(s, BetterLe) && 0 < k <= |s| && Better(x, s[0])
    ensures Top(Place(x, s), k) == Offer(Top(s, k), x, k)
  {
    hide Better;
    var t := s[..k];
    assert Sorted(t, BetterLe) && t[0] == s[0];
    FirstSorted(x, t);
    assert ([x] + s)[..k] == [x] + t[..k - 1];
    assert k == 1 ==> t[..k - 1] == [];
  }

  lemma {:induction false} PlaceLater(s: seq<Candidate>, x: Candidate, k: nat)
    requires 0 < k <= |s| && !Better(x, s[0])
    requires Top(Place(x, s[1..]), k - 1) == Offer(Top(s[1..], k - 1), x, k - 1)
    ensures Top(Place(x, s), k) == Offer(Top(s, k), x, k)
  {
    hide Better;
    var t, u := s[..k], s[1..][..k - 1];
    assert t == [s[0]] + u;
    assert Top(s, k) == t && Top(s[1..], k - 1) == u;
    assert Top(Place(x, s), k) == [s[0]] + Top(Place(x, s[1..]), k - 1);
    if k > 1 {
      assert t[..k - 1] == [s[0]] + u[..k - 2];
      assert t[..k - 1][1..] == u[..k - 2];
    }
  }

  lemma {:induction false} SortOfSorted(s: seq<Candidate>)
    requires Sorted(s, BetterLe)
    ensures Sort(s, BetterLe) == s
  {
    hide BetterLe;
    if s != [] {
      TailSorted(s);
      SortOfSorted(s[1..]);
      assert |s| > 1 ==> BetterLe(s[0], s[1]);
      assert s == [s[0]] + s[1..];
    }
  }

  // ---- fewest inputs ----

  lemma {:induction false} AmountsRemove(cs: seq<Candidate>, i: nat)
    requires i < |cs|
    ensures Amounts(cs[..i] + cs[i + 1..]) == Amounts(cs) - cs[i].amount
    ensures multiset(cs[..i] + cs[i + 1..]) == multiset(cs) - multiset{cs[i]}
  {
    assert cs == cs[..i] + [cs[i]] + cs[i + 1..];
    AmountsConcat(cs[..i], cs[i + 1..]);
    AmountsConcat(cs[..i] + [cs[i]], cs[i + 1..]);
    AmountsConcat(cs[..i], [cs[i]]);
    assert [cs[i]][1..] == [];
    assert Amounts([cs[i]]) == cs[i].amount;
  }

  lemma {:induction false} AmountsConcat(a: seq<Candidate>, b: seq<Candidate>)
    ensures Amounts(a + b) == Amounts(a) + Amounts(b)
  {
    if a == [] {
      assert a + b == b;
    } else {
      AmountsConcat(a[1..], b);
      assert (a + b)[1..] == a[1..] + b;
    }
  }

  lemma {:induction false} ShiftLess(s: seq<Candidate>, n: nat)
    requires Sorted(s, BetterLe) && n < |s|
    ensures Amounts(s[1..][..n]) <= Amounts(s[..n])
  {
    hide BigEndian;
    if n > 0 {
      assert s[..n][1..] == s[1..][..n - 1];
      assert s[1..][..n] == s[1..][..n - 1] + [s[n]];
      AmountsConcat(s[1..][..n - 1], [s[n]]);
      assert [s[n]][1..] == [];
      assert Amounts([s[n]]) == s[n].amount;
      assert BetterLe(s[0], s[n]);
    }
  }

  /** No `n` candidates are worth more than the `n` best ones. */
  lemma {:induction false} BestPrefix(s: seq<Candidate>, t: seq<Candidate>)
    requires Sorted(s, BetterLe) && multiset(t) <= multiset(s)
    ensures |t| <= |s| && Amounts(t) <= Amounts(s[..|t|])
    decreases |s|
  {
    hide BetterLe, Sorted;
    assert |multiset(t)| == |t| && |multiset(s)| == |s|;
    if t == [] {
      assert s[..0] == [];
    } else if s[0] in t {
      var i :| 0 <= i < |t| && t[i] == s[0];
      AmountsRemove(t, i);
      var rest := t[..i] + t[i + 1..];
      TailSorted(s);
      TailMultiset(s);
      BestPrefix(s[1..], rest);
      assert s[..|t|][1..] == s[1..][..|rest|];
    } else {
      TailSorted(s);
      TailMultiset(s);
      AvoidHead(s, t);
      BestPrefix(s[1..], t);
      ShiftLess(s, |t|);
    }
  }

  lemma {:induction false} AvoidHead(s: seq<Candidate>, t: seq<Candidate>)
    requires s != [] && s[0] !in t && multiset(t) <= multiset(s)
    ensures multiset(t) <= multiset(s[1..])
  {
    TailMultiset(s);
    forall c ensures multiset(t)[c] <= multiset(s[1..])[c] {
      assert c == s[0] ==> multiset(t)[c] == 0;
    }
  }

  /** How many of the best candidates it takes to reach `need`; all of them when they do not. */
  function Cut(best: seq<Candidate>, need: int, n: nat): (r: nat)
    requires n <= |best|
    ensures n <= r <= |best|
    decreases |best| - n
  {
    if n == |best| || (n > 0 && Amounts(best[..n]) >= need) then n else Cut(best, need, n + 1)
  }

  lemma {:induction false} CutFacts(best: seq<Candidate>, need: int, n: nat)
    requires n <= |best|
    ensures var r := Cut(best, need, n);
            && (r < |best| ==> Amounts(best[..r]) >= need)
            && (forall i :: n <= i < r && 0 < i ==> Amounts(best[..i]) < need)
    decreases |best| - n
  {
    if !(n == |best| || (n > 0 && Amounts(best[..n]) >= need)) {
      CutFacts(best, need, n + 1);
    }
  }

  lemma {:induction false} TopOfSorted(s: seq<Candidate>, k: nat, n: nat)
    requires n <= |Top(s, k)|
    ensures Top(s, k)[..n] == s[..n]
  {
  }

  /** The greedy choice: no set of candidates that reaches the amount is smaller, and when the greedy choice falls
      short no admissible set reaches it at all. */
  lemma {:induction false} FewestInputs(cs: seq<Candidate>, k: nat, need: int, t: seq<Candidate>)
    requires need > 0 && multiset(t) <= multiset(cs) && Amounts(t) >= need && |t| <= k
    ensures var best := Top(Ranked(cs), k);
            Amounts(best[..Cut(best, need, 0)]) >= need && Cut(best, need, 0) <= |t|
  {
    hide BetterLe, Sorted, Place;
    var s := Ranked(cs);
    var best := Top(s, k);
    RankedFacts(cs);
    BestPrefix(s, t);
    CutFacts(best, need, 0);
    TopOfSorted(s, k, |t|);
    var r := Cut(best, need, 0);
    assert t != [];
    assert best[..|best|] == best;
  }
}
