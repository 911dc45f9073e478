/** Ranked-retrieval metrics (evals/metrics.py). Scores are reals; the rank discount
    1/log2(rank+1) is any positive, strictly decreasing function of the rank. */
module Metrics {
  import opened Basics

  type Id = string

  // ----- First-occurrence order -----

  function Dedupe(ids: seq<Id>): seq<Id> {
    if ids == [] then []
    else
      var out, last := Dedupe(ids[..|ids| - 1]), ids[|ids| - 1];
      if last in ids[..|ids| - 1] then out else out + [last]
  }

  /** The loop of `_dedupe_preserve_order`. */
  method DedupePreserveOrder(ids: seq<Id>) returns (out: seq<Id>)
    ensures out == Dedupe(ids)
  {
    var seen: set<Id> := {};
    out := [];
    for i := 0 to |ids|
      invariant forall x :: x in seen <==> x in ids[..i]
      invariant out == Dedupe(ids[..i])
    {
      assert ids[..i + 1] == ids[..i] + [ids[i]] && ids[..i + 1][..i] == ids[..i];
      if ids[i] !in seen {
        seen := seen + {ids[i]};
        out := out + [ids[i]];
      }
    }
    assert ids[..|ids|] == ids;
  }

  predicate Distinct(s: seq<Id>) {
    forall i, j | 0 <= i < j < |s| :: s[i] != s[j]
  }

  predicate IsFirst(ids: seq<Id>, p: nat) {
    p < |ids| && ids[p] !in ids[..p]
  }

  /** The positions of the first occurrences, in order. */
  function Firsts(ids: seq<Id>): seq<nat> {
    if ids == [] then []
    else
      var n := |ids| - 1;
      Firsts(ids[..n]) + if IsFirst(ids, n) then [n] else []
  }

  lemma {:induction false} FirstsAreIncreasing(ids: seq<Id>)
    ensures forall p: nat :: p in Firsts(ids) <==> IsFirst(ids, p)
    ensures forall i, j | 0 <= i < j < |Firsts(ids)| :: Firsts(ids)[i] < Firsts(ids)[j]
  {
    if ids != [] {
      var n := |ids| - 1;
      FirstsAreIncreasing(ids[..n]);
      forall p: nat | p < n ensures IsFirst(ids, p) <==> IsFirst(ids[..n], p) {
        assert ids[..p] == ids[..n][..p];
      }
      forall i | 0 <= i < |Firsts(ids[..n])| ensures Firsts(ids[..n])[i] < n {
        assert IsFirst(ids[..n], Firsts(ids[..n])[i]);
      }
    }
  }

  /** Exactly the first occurrence of each id is kept, in the order they stood. */
  lemma {:induction false} DedupeKeepsFirsts(ids: seq<Id>)
    ensures |Dedupe(ids)| == |Firsts(ids)|
    ensures forall i | 0 <= i < |Firsts(ids)| :: Firsts(ids)[i] < |ids| && Dedupe(ids)[i] == ids[Firsts(ids)[i]]
  {
    if ids != [] {
      DedupeKeepsFirsts(ids[..|ids| - 1]);
    }
  }

  lemma {:induction false} DedupeIsDistinct(ids: seq<Id>)
    ensures Distinct(Dedupe(ids))
    ensures forall x :: x in Dedupe(ids) <==> x in ids
  {
    if ids != [] {
      DedupeIsDistinct(ids[..|ids| - 1]);
      assert ids == ids[..|ids| - 1] + [ids[|ids| - 1]];
    }
  }

  // ----- The metrics -----

  /** Python's `s[:k]`, negative k included. */
  function Top(s: seq<Id>, k: int): seq<Id> {
    if k >= |s| then s
    else if k >= 0 then s[..k]
    else if |s| + k >= 0 then s[..|s| + k]
    else []
  }

  function SetOf(s: seq<Id>): set<Id> { set x | x in s }

  /** `sum(1 for r in top if r in rel)`. */
  function HitsByRank(top: seq<Id>, rel: set<Id>): nat {
    if top == [] then 0
    else HitsByRank(top[..|top| - 1], rel) + if top[|top| - 1] in rel then 1 else 0
  }

  function HitAtK(retrieved: seq<Id>, relevant: seq<Id>, k: int): real {
    if relevant == [] then 0.0
    else
      var top := Top(Dedupe(retrieved), k);
      if exists r :: r in relevant && r in top then 1.0 else 0.0
  }

  /** `sum(1 for r in set(relevant) if r in top)`. */
  function HitsBySet(top: seq<Id>, rel: set<Id>): nat { |set r | r in rel && r in top| }

  lemma NonEmpty(s: seq<Id>)
    requires s != []
    ensures |SetOf(s)| > 0
  {
    assert s[0] in SetOf(s);
  }

  function Ratio(a: nat, b: nat): (q: real)
    requires b > 0
    ensures q * b as real == a as real
  {
    a as real / b as real
  }

  function Quotient(a: real, b: real): (q: real)
    requires b != 0.0
    ensures q * b == a
  {
    a / b
  }

  function RecallAtK(retrieved: seq<Id>, relevant: seq<Id>, k: int): real {
    if relevant == [] then 0.0
    else
      NonEmpty(relevant);
      Ratio(HitsBySet(Top(Dedupe(retrieved), k), SetOf(relevant)), |SetOf(relevant)|)
  }

  function PrecisionAtK(retrieved: seq<Id>, relevant: seq<Id>, k: int): real {
    var top := Top(Dedupe(retrieved), k);
    if top == [] then 0.0
    else Ratio(HitsByRank(top, SetOf(relevant)), |top|)
  }

  /** The 1-based rank of the first relevant id of a list, or 0. */
  function FirstRank(ranked: seq<Id>, rel: set<Id>): (rank: nat)
    ensures rank == 0 ==> forall i | 0 <= i < |ranked| :: ranked[i] !in rel
    ensures rank > 0 ==> rank <= |ranked| && ranked[rank - 1] in rel
    ensures rank > 0 ==> forall i | 0 <= i < rank - 1 :: ranked[i] !in rel
  {
    if ranked == [] then 0
    else if ranked[0] in rel then 1
    else
      var r := FirstRank(ranked[1..], rel);
      assert forall i | 0 < i < |ranked| :: ranked[i] == ranked[1..][i - 1];
      if r == 0 then 0 else r + 1
  }

  /** The loop of `reciprocal_rank`. */
  method ReciprocalRank(retrieved: seq<Id>, relevant: seq<Id>) returns (score: real)
    ensures var rank := FirstRank(Dedupe(retrieved), SetOf(relevant));
            score == if rank == 0 then 0.0 else Ratio(1, rank)
  {
    var rel := SetOf(relevant);
    var ranked := DedupePreserveOrder(retrieved);
    for i := 0 to |ranked|
      invariant forall j | 0 <= j < i :: ranked[j] !in rel
    {
      if ranked[i] in rel {
        return Ratio(1, i + 1);
      }
    }
    return 0.0;
  }

  ghost predicate Discount(d: nat -> real) {
    (forall r: nat :: d(r) > 0.0) && forall m: nat, n: nat | m < n :: d(m) > d(n)
  }

  /** The discounted gain of the relevant ids of a ranked list. */
  function Dcg(top: seq<Id>, rel: set<Id>, d: nat -> real): real {
    if top == [] then 0.0
    else Dcg(top[..|top| - 1], rel, d) + if top[|top| - 1] in rel then d(|top|) else 0.0
  }

  /** The gain of n relevant ids ranked first. */
  function Idcg(n: int, d: nat -> real): real {
    if n <= 0 then 0.0 else Idcg(n - 1, d) + d(n)
  }

  function IdealHits(relevant: seq<Id>, k: int): int {
    if |SetOf(relevant)| <= k then |SetOf(relevant)| else k
  }

  function NdcgAtK(retrieved: seq<Id>, relevant: seq<Id>, k: int, d: nat -> real): real {
    if relevant == [] then 0.0
    else
      var dcg := Dcg(Top(Dedupe(retrieved), k), SetOf(relevant), d);
      var idcg := Idcg(IdealHits(relevant, k), d);
      if idcg != 0.0 then Quotient(dcg, idcg) else 0.0
  }

  // ----- Counting over the set and counting over the ranks agree -----

  lemma HitsBySetLast(init: seq<Id>, last: Id, rel: set<Id>)
    requires last !in init
    ensures HitsBySet(init + [last], rel) == HitsBySet(init, rel) + if last in rel then 1 else 0
  {
    var before := set r | r in rel && r in init;
    assert (set r | r in rel && r in init + [last]) == if last in rel then before + {last} else before;
  }

  lemma {:induction false} HitsAgree(top: seq<Id>, rel: set<Id>)
    requires Distinct(top)
    ensures HitsBySet(top, rel) == HitsByRank(top, rel)
  {
    if top != [] {
      var init, last := top[..|top| - 1], top[|top| - 1];
      HitsAgree(init, rel);
      HitsBySetLast(init, last, rel);
      assert top == init + [last];
    }
  }

  lemma TopIsPrefix(s: seq<Id>, k: int)
    ensures Top(s, k) <= s
    ensures k >= 0 ==> |Top(s, k)| <= k
  {
  }

  /** A slice counts from the end when k is negative, and never fails. */
  lemma WhatTopKeeps(s: seq<Id>, k: int, p: nat)
    requires p < |s|
    ensures p < |Top(s, k)| <==> p < k || p < |s| + k < |s|
    ensures p < |Top(s, k)| ==> Top(s, k)[p] == s[p]
  {
  }

  /** The top of the deduplicated list: distinct, and a prefix of it. */
  lemma TopDistinct(retrieved: seq<Id>, k: int)
    ensures Distinct(Top(Dedupe(retrieved), k))
  {
    DedupeIsDistinct(retrieved);
    TopIsPrefix(Dedupe(retrieved), k);
  }

  /** The ranks, from 0, at which a relevant id stands. */
  function HitRanks(top: seq<Id>, rel: set<Id>): set<nat> { set p: nat | p < |top| && top[p] in rel }

  lemma {:induction false} HitsAreRanks(top: seq<Id>, rel: set<Id>)
    ensures HitsByRank(top, rel) == |HitRanks(top, rel)|
  {
    if top != [] {
      var init, last := top[..|top| - 1], top[|top| - 1];
      HitsAreRanks(init, rel);
      assert |init| !in HitRanks(init, rel);
      assert HitRanks(top, rel) == if last in rel then HitRanks(init, rel) + {|init|} else HitRanks(init, rel);
    }
  }

  /** Recall and precision are one number, that of the ranks in the top k with a relevant id,
      over |set(relevant)| and over |top|: recall * |rel| == hits == precision * |top|. */
  lemma RecallPrecisionBalance(retrieved: seq<Id>, relevant: seq<Id>, k: int)
    ensures var top, rel := Top(Dedupe(retrieved), k), SetOf(relevant);
      var hits := |HitRanks(top, rel)|;
      && (if relevant == [] then RecallAtK(retrieved, relevant, k) == 0.0
          else |rel| > 0 && RecallAtK(retrieved, relevant, k) == Ratio(hits, |rel|))
      && (if top == [] then PrecisionAtK(retrieved, relevant, k) == 0.0
          else PrecisionAtK(retrieved, relevant, k) == Ratio(hits, |top|))
  {
    var top := Top(Dedupe(retrieved), k);
    TopDistinct(retrieved, k);
    HitsAgree(top, SetOf(relevant));
    HitsAreRanks(top, SetOf(relevant));
    if relevant != [] {
      NonEmpty(relevant);
    }
  }

  lemma {:induction false} SomeHit(top: seq<Id>, rel: set<Id>)
    ensures HitsByRank(top, rel) <= |top|
    ensures HitsByRank(top, rel) > 0 <==> exists r :: r in rel && r in top
    ensures FirstRank(top, rel) > 0 <==> exists r :: r in rel && r in top
  {
    if top != [] {
      var init, last := top[..|top| - 1], top[|top| - 1];
      SomeHit(init, rel);
      assert top == init + [last];
    }
  }

  lemma {:induction false} FirstRankOfPrefix(top: seq<Id>, s: seq<Id>, rel: set<Id>)
    requires top <= s
    ensures FirstRank(top, rel) == if FirstRank(s, rel) <= |top| then FirstRank(s, rel) else 0
  {
    assert forall i | 0 <= i < |top| :: top[i] == s[i];
  }

  /** The four views of "something relevant in the top k" agree; the rank one needs k >= 1. */
  lemma HitViews(retrieved: seq<Id>, relevant: seq<Id>, k: int)
    requires relevant != []
    ensures HitAtK(retrieved, relevant, k) == 1.0 || HitAtK(retrieved, relevant, k) == 0.0
    ensures HitAtK(retrieved, relevant, k) == 1.0 <==> RecallAtK(retrieved, relevant, k) > 0.0
    ensures HitAtK(retrieved, relevant, k) == 1.0 <==> PrecisionAtK(retrieved, relevant, k) > 0.0
    ensures k >= 1 ==>
      var rank := FirstRank(Dedupe(retrieved), SetOf(relevant));
      HitAtK(retrieved, relevant, k) == 1.0 <==> rank > 0 && Ratio(1, rank) >= Ratio(1, k)
  {
    var top, rel := Top(Dedupe(retrieved), k), SetOf(relevant);
    TopDistinct(retrieved, k);
    HitsAgree(top, rel);
    SomeHit(top, rel);
    NonEmpty(relevant);
    assert HitAtK(retrieved, relevant, k) == 1.0 <==> HitsByRank(top, rel) > 0;
    QuotientSign(HitsByRank(top, rel), |rel|);
    if top != [] {
      QuotientSign(HitsByRank(top, rel), |top|);
    }
    if k >= 1 {
      TopIsPrefix(Dedupe(retrieved), k);
      FirstRankOfPrefix(top, Dedupe(retrieved), rel);
      var rank := FirstRank(Dedupe(retrieved), rel);
      if rank > 0 {
        ReciprocalOrder(rank, k);
      }
    }
  }

  lemma QuotientSign(a: nat, b: nat)
    requires b > 0
    ensures Ratio(a, b) > 0.0 <==> a > 0
  {
  }

  lemma ReciprocalOrder(a: nat, b: nat)
    requires a > 0 && b > 0
    ensures Ratio(1, a) >= Ratio(1, b) <==> a <= b
  {
    var x, y := a as real, b as real;
    assert (1.0 / x - 1.0 / y) * (x * y) == y - x;
  }

  // ----- The bound on nDCG -----

  /** All the relevant ids of the list stand at its head. */
  predicate HitsFirst(top: seq<Id>, rel: set<Id>) {
    forall i | 0 <= i < HitsByRank(top, rel) <= |top| :: top[i] in rel
  }

  lemma {:induction false} IdcgGrows(m: nat, n: nat, d: nat -> real)
    requires Discount(d) && m <= n
    ensures 0.0 <= Idcg(m, d) <= Idcg(n, d)
    ensures m < n ==> Idcg(m, d) < Idcg(n, d)
    decreases n
  {
    if m < n {
      IdcgGrows(m, n - 1, d);
    } else if n > 0 {
      IdcgGrows(m - 1, n - 1, d);
    }
  }

  /** Hits at distinct ranks gain at most what as many first ranks gain, with equality
      exactly when they are the first ranks. */
  lemma {:induction false} DcgBound(top: seq<Id>, rel: set<Id>, d: nat -> real)
    requires Discount(d)
    ensures 0.0 <= Dcg(top, rel, d) <= Idcg(HitsByRank(top, rel), d)
    ensures Dcg(top, rel, d) == Idcg(HitsByRank(top, rel), d) <==> HitsFirst(top, rel)
  {
    if top != [] {
      var init, last := top[..|top| - 1], top[|top| - 1];
      DcgBound(init, rel, d);
      LastGain(init, last, rel, d);
      HitsFirstLast(init, last, rel);
      assert top == init + [last];
    }
  }

  /** What one more result adds: a hit at its rank no more than at the next ideal rank. */
  lemma LastGain(init: seq<Id>, last: Id, rel: set<Id>, d: nat -> real)
    requires Discount(d)
    ensures var top, h := init + [last], HitsByRank(init, rel);
      if last in rel
      then
        && Dcg(top, rel, d) == Dcg(init, rel, d) + d(|top|)
        && Idcg(HitsByRank(top, rel), d) == Idcg(h, d) + d(h + 1)
        && h <= |init| && d(h + 1) >= d(|top|) > 0.0 && (d(h + 1) == d(|top|) <==> h == |init|)
      else Dcg(top, rel, d) == Dcg(init, rel, d) && HitsByRank(top, rel) == h
  {
    SomeHit(init, rel);
    assert (init + [last])[..|init|] == init;
  }

  lemma HitsFirstLast(init: seq<Id>, last: Id, rel: set<Id>)
    ensures HitsFirst(init + [last], rel) <==>
            HitsFirst(init, rel) && (last in rel ==> HitsByRank(init, rel) == |init|)
  {
    var h := HitsByRank(init, rel);
    SomeHit(init, rel);
    assert (init + [last])[..|init|] == init;
    assert forall i | 0 <= i < |init| :: (init + [last])[i] == init[i];
    if h < |init| {
      SkippedRank(init, rel);
    }
  }

  /** A list with fewer hits than places has a place without a hit among the first h + 1. */
  lemma {:induction false} SkippedRank(init: seq<Id>, rel: set<Id>)
    requires HitsByRank(init, rel) < |init|
    ensures exists i :: 0 <= i <= HitsByRank(init, rel) && init[i] !in rel
  {
    var h := HitsByRank(init, rel);
    if forall i | 0 <= i <= h :: init[i] in rel {
      HitsOfPrefix(init, h + 1, rel);
    }
  }

  lemma {:induction false} HitsOfPrefix(s: seq<Id>, n: nat, rel: set<Id>)
    requires n <= |s|
    requires forall i | 0 <= i < n :: s[i] in rel
    ensures HitsByRank(s, rel) >= n
  {
    if n > 0 {
      if n == |s| {
        HitsOfPrefix(s[..n - 1], n - 1, rel);
      } else {
        HitsOfPrefix(s[..|s| - 1], n, rel);
      }
    }
  }

  lemma HitsAtMostIdeal(retrieved: seq<Id>, relevant: seq<Id>, k: int)
    requires k >= 0
    ensures HitsByRank(Top(Dedupe(retrieved), k), SetOf(relevant)) <= IdealHits(relevant, k)
  {
    var top, rel := Top(Dedupe(retrieved), k), SetOf(relevant);
    TopDistinct(retrieved, k);
    TopIsPrefix(Dedupe(retrieved), k);
    HitsAgree(top, rel);
    SomeHit(top, rel);
    SubsetSize((set r | r in rel && r in top), rel);
  }

  /** 0 <= nDCG@k <= 1 for every k. */
  lemma NdcgBound(retrieved: seq<Id>, relevant: seq<Id>, k: int, d: nat -> real)
    requires Discount(d)
    ensures 0.0 <= NdcgAtK(retrieved, relevant, k, d) <= 1.0
  {
    if relevant != [] && k > 0 {
      var top, rel := Top(Dedupe(retrieved), k), SetOf(relevant);
      HitsAtMostIdeal(retrieved, relevant, k);
      DcgBound(top, rel, d);
      NonEmpty(relevant);
      IdcgGrows(HitsByRank(top, rel), IdealHits(relevant, k), d);
      IdcgGrows(0, IdealHits(relevant, k), d);
      QuotientBound(Dcg(top, rel, d), Idcg(IdealHits(relevant, k), d));
    }
  }

  lemma ProductSign(x: real, b: real)
    requires b > 0.0
    ensures x * b > 0.0 <==> x > 0.0
    ensures x * b < 0.0 <==> x < 0.0
  {
    if x > 0.0 {
      assert x * b > 0.0;
    } else if x < 0.0 {
      assert -x * b > 0.0;
    }
  }

  lemma OneLess(q: real, b: real)
    ensures (q - 1.0) * b == q * b - b
  {
  }

  lemma QuotientBound(a: real, b: real)
    requires 0.0 <= a <= b && b > 0.0
    ensures 0.0 <= Quotient(a, b) <= 1.0
    ensures Quotient(a, b) == 1.0 <==> a == b
  {
    var q := Quotient(a, b);
    OneLess(q, b);
    ProductSign(q - 1.0, b);
    ProductSign(q, b);
  }

  /** A perfect score: exactly when the first min(|rel|, k) distinct results are relevant. */
  lemma NdcgIsOne(retrieved: seq<Id>, relevant: seq<Id>, k: int, d: nat -> real)
    requires Discount(d) && relevant != [] && k >= 1
    ensures NdcgAtK(retrieved, relevant, k, d) == 1.0 <==>
            && IdealHits(relevant, k) <= |Dedupe(retrieved)|
            && forall i | 0 <= i < IdealHits(relevant, k) :: Dedupe(retrieved)[i] in relevant
  {
    var ranked, rel, n := Dedupe(retrieved), SetOf(relevant), IdealHits(relevant, k);
    var top := Top(ranked, k);
    var h := HitsByRank(top, rel);
    HitsAtMostIdeal(retrieved, relevant, k);
    DcgBound(top, rel, d);
    SomeHit(top, rel);
    NonEmpty(relevant);
    IdcgGrows(h, n, d);
    IdcgGrows(0, n, d);
    QuotientBound(Dcg(top, rel, d), Idcg(n, d));
    assert forall i | 0 <= i < |top| :: top[i] == ranked[i];
    if n <= |ranked| && forall i | 0 <= i < n :: ranked[i] in relevant {
      HitsOfPrefix(top, n, rel);
    }
  }

  // ----- The value of nDCG -----

  /** The sum of f over the positions below n. */
  function Total(f: nat -> real, n: nat): real { if n == 0 then 0.0 else Total(f, n - 1) + f(n - 1) }

  /** What a position gains if everything is relevant. */
  function IdealAt(d: nat -> real): nat -> real { (p: nat) => d(p + 1) }

  /** What a position gains: the discount of its rank, if a relevant id stands there. */
  function GainAt(ranked: seq<Id>, relevant: seq<Id>, d: nat -> real): nat -> real {
    (p: nat) => if p < |ranked| && ranked[p] in relevant then d(p + 1) else 0.0
  }

  lemma {:induction false} TotalsAgree(f: nat -> real, g: nat -> real, n: nat)
    requires forall p: nat | p < n :: f(p) == g(p)
    ensures Total(f, n) == Total(g, n)
  {
    if n > 0 {
      TotalsAgree(f, g, n - 1);
    }
  }

  lemma {:induction false} IdcgIsTotal(n: nat, d: nat -> real)
    ensures Idcg(n, d) == Total(IdealAt(d), n)
  {
    if n > 0 {
      IdcgIsTotal(n - 1, d);
    }
  }

  lemma {:induction false} DcgIsTotal(top: seq<Id>, relevant: seq<Id>, d: nat -> real)
    ensures Dcg(top, SetOf(relevant), d) == Total(GainAt(top, relevant, d), |top|)
  {
    if top != [] {
      var init := top[..|top| - 1];
      DcgIsTotal(init, relevant, d);
      TotalsAgree(GainAt(init, relevant, d), GainAt(top, relevant, d), |init|);
    }
  }

  /** Beyond the end of the list there is nothing to gain. */
  lemma {:induction false} TotalOfTop(ranked: seq<Id>, relevant: seq<Id>, k: nat, d: nat -> real)
    ensures Total(GainAt(Top(ranked, k), relevant, d), |Top(ranked, k)|) == Total(GainAt(ranked, relevant, d), k)
  {
    if k <= |ranked| {
      TotalsAgree(GainAt(Top(ranked, k), relevant, d), GainAt(ranked, relevant, d), k);
    } else {
      TotalOfTop(ranked, relevant, k - 1, d);
    }
  }

  /** The score is the gain over the ideal gain: both sums over positions, the ideal one over
      the first min(|set(relevant)|, k), the other over those of the first k distinct results
      that are relevant. */
  lemma NdcgValue(retrieved: seq<Id>, relevant: seq<Id>, k: nat, d: nat -> real)
    requires Discount(d)
    ensures var ideal := Total(IdealAt(d), Min(|SetOf(relevant)|, k));
      if relevant == [] || k == 0 then NdcgAtK(retrieved, relevant, k, d) == 0.0
      else
        && ideal > 0.0
        && NdcgAtK(retrieved, relevant, k, d) == Quotient(Total(GainAt(Dedupe(retrieved), relevant, d), k), ideal)
  {
    var ranked, n := Dedupe(retrieved), IdealHits(relevant, k);
    IdcgIsTotal(n, d);
    DcgIsTotal(Top(ranked, k), relevant, d);
    TotalOfTop(ranked, relevant, k, d);
    IdcgGrows(0, n, d);
    if relevant != [] {
      NonEmpty(relevant);
    }
  }

  /** Nothing is asked for: nothing is scored. */
  lemma NothingAsked(retrieved: seq<Id>, relevant: seq<Id>, k: int, d: nat -> real)
    requires k <= 0
    ensures NdcgAtK(retrieved, relevant, k, d) == 0.0
  {
  }

  lemma {:induction false} OneGain(ranked: seq<Id>, relevant: seq<Id>, d: nat -> real, p: nat, k: nat)
    requires p < |ranked| && ranked[p] in relevant
    requires forall q | 0 <= q < |ranked| && ranked[q] in relevant :: q == p
    ensures Total(GainAt(ranked, relevant, d), k) == if p < k then d(p + 1) else 0.0
  {
    if k > 0 {
      OneGain(ranked, relevant, d, p, k - 1);
    }
  }

  /** One relevant id, at rank m of the distinct results: the score is d(m) / d(1). */
  lemma NdcgOfOne(retrieved: seq<Id>, id: Id, k: nat, d: nat -> real, m: nat)
    requires Discount(d) && 1 <= m <= k && m <= |Dedupe(retrieved)| && Dedupe(retrieved)[m - 1] == id
    ensures NdcgAtK(retrieved, [id], k, d) == Quotient(d(m), d(1))
  {
    DedupeIsDistinct(retrieved);
    NdcgValue(retrieved, [id], k, d);
    OneGain(Dedupe(retrieved), [id], d, m - 1, k);
    assert SetOf([id]) == {id};
    assert Total(IdealAt(d), 1) == Total(IdealAt(d), 0) + d(1) == d(1);
  }

  /** So moving the only hit up raises the score. */
  lemma MovingUpScoresMore(before: seq<Id>, after: seq<Id>, id: Id, k: nat, d: nat -> real, m: nat, n: nat)
    requires Discount(d) && 1 <= n < m <= k
    requires m <= |Dedupe(before)| && Dedupe(before)[m - 1] == id
    requires n <= |Dedupe(after)| && Dedupe(after)[n - 1] == id
    ensures NdcgAtK(before, [id], k, d) < NdcgAtK(after, [id], k, d)
  {
    NdcgOfOne(before, id, k, d, m);
    NdcgOfOne(after, id, k, d, n);
    assert d(n) > d(m) && d(1) > 0.0;
    LargerQuotient(d(m), d(n), d(1));
  }

  lemma LargerQuotient(a: real, c: real, b: real)
    requires b > 0.0 && a < c
    ensures Quotient(a, b) < Quotient(c, b)
  {
    var x, y := Quotient(a, b), Quotient(c, b);
    ProductSign(y - x, b);
    assert (y - x) * b == y * b - x * b;
  }
}
