/** The four ranking metrics of one query: nDCG over graded relevance, and
    precision, recall and average precision over a 0/1 relevance vector. */
module Metrics {
  import opened Common
  import opened DiscountedGain

  // ----- nDCG -----

  /** `ndcg_at_k(rels, k)`: the DCG of the ranking divided by the DCG of
      the ideal (descending) ordering, and 0 when the ideal DCG is 0. */
  function Ndcg(rels: seq<nat>, k: int, d: Discount): (r: real)
    ensures 0.0 <= r <= 1.0
  {
    var dcg := Dcg(rels, k, d);
    var idcg := Dcg(SortDesc(rels), k, d);
    IdealDominates(rels, 1, Cut(k, |rels|), d);
    if idcg == 0.0 then 0.0
    else
      RatioInUnit(dcg, idcg);
      dcg / idcg
  }

  /** `ndcg_at_k`: two runs of the DCG loop, one over the ranking and one
      over its ideal ordering. */
  method NdcgAtK(rels: seq<nat>, k: int, d: Discount) returns (r: real)
    ensures r == Ndcg(rels, k, d)
  {
    var dcg := DcgAtK(rels, k, d);
    var ideal := SortDesc(rels);
    var idcg := DcgAtK(ideal, k, d);
    if idcg == 0.0 {
      return 0.0;
    }
    r := dcg / idcg;
  }

  /** nDCG is zero exactly when every grade in the top k is zero: a zero
      ideal DCG forces a zero DCG, since no ranking beats its ideal order. */
  lemma NdcgZeroIff(rels: seq<nat>, k: int, d: Discount)
    ensures Ndcg(rels, k, d) == 0.0 <==> forall i :: 0 <= i < Cut(k, |rels|) ==> rels[i] == 0
  {
    var c := Cut(k, |rels|);
    DcgFromZeroIff(rels, 1, c, d);
    IdealDominates(rels, 1, c, d);
    var idcg := Dcg(SortDesc(rels), k, d);
    if idcg != 0.0 {
      RatioZeroIff(Dcg(rels, k, d), idcg);
    }
  }

  /** A ranking with no relevant product scores 0. */
  lemma NdcgOfZeros(rels: seq<nat>, k: int, d: Discount)
    requires forall i :: 0 <= i < |rels| ==> rels[i] == 0
    ensures Ndcg(rels, k, d) == 0.0
  {
    NdcgZeroIff(rels, k, d);
  }

  /** A ranking whose top k is the ideal top k, with a positive grade at
      some position i there, scores exactly 1, whatever order the grades
      below k are in. */
  lemma NdcgOfIdealIsOne(rels: seq<nat>, k: int, d: Discount, i: nat)
    requires PyPrefix(rels, k) == PyPrefix(SortDesc(rels), k)
    requires i < Cut(k, |rels|) && rels[i] > 0
    ensures Ndcg(rels, k, d) == 1.0
  {
    DcgPrefixOnly(rels, SortDesc(rels), k, d);
    DcgPositive(rels, k, d, i);
    SelfRatio(Dcg(rels, k, d));
  }

  /** A positive grade in the top k makes the DCG nonzero. */
  lemma DcgPositive(rels: seq<nat>, k: int, d: Discount, i: nat)
    requires i < Cut(k, |rels|) && rels[i] > 0
    ensures Dcg(rels, k, d) != 0.0
  {
    DcgFromZeroIff(rels, 1, Cut(k, |rels|), d);
  }

  // ----- Precision and recall -----

  /** `precision_at_k`: the mean of the top-k values, 0 for an empty top. */
  function Precision(bins: seq<int>, k: int): (r: real)
    ensures PyPrefix(bins, k) == [] ==> r == 0.0
  {
    var top := PyPrefix(bins, k);
    if top == [] then 0.0 else Sum(top) as real / |top| as real
  }

  /** Without a hit there is no precision. */
  lemma PrecisionOfZeros(bins: seq<int>, k: int)
    requires forall i :: 0 <= i < |bins| ==> bins[i] == 0
    ensures Precision(bins, k) == 0.0
  {
    var top := PyPrefix(bins, k);
    assert forall i :: 0 <= i < |top| ==> top[i] == 0;
    SumOfZeros(top);
    if top != [] {
      RatioZeroIff(0.0, |top| as real);
    }
  }

  /** On a 0/1 vector precision is the share of hits in the top k, a value
      between 0 and 1. */
  lemma PrecisionIsHitRate(bins: seq<int>, k: int)
    requires IsBinary(PyPrefix(bins, k)) && PyPrefix(bins, k) != []
    ensures Precision(bins, k) == Ones(PyPrefix(bins, k)) as real / |PyPrefix(bins, k)| as real
    ensures 0.0 <= Precision(bins, k) <= 1.0
  {
    var top := PyPrefix(bins, k);
    BinarySumIsOnes(top);
    FractionAtMostOne(Ones(top), |top|);
  }

  /** `recall_at_k`: the sum of the top-k values over the number of relevant
      products, 0 when there are none. */
  function Recall(bins: seq<int>, total: int, k: int): (r: real)
    ensures total == 0 ==> r == 0.0
  {
    if total == 0 then 0.0 else Sum(PyPrefix(bins, k)) as real / total as real
  }

  /** On a 0/1 vector recall is the share of relevant products found in
      the top k; it lies between 0 and 1 when there are at least as many
      relevant products as hits. */
  lemma RecallIsHitShare(bins: seq<int>, total: int, k: int)
    requires IsBinary(PyPrefix(bins, k))
    ensures total != 0 ==> Recall(bins, total, k) == Ones(PyPrefix(bins, k)) as real / total as real
    ensures Ones(PyPrefix(bins, k)) <= total ==> 0.0 <= Recall(bins, total, k) <= 1.0
  {
    BinarySumIsOnes(PyPrefix(bins, k));
    if total != 0 && Ones(PyPrefix(bins, k)) <= total {
      FractionAtMostOne(Ones(PyPrefix(bins, k)), total);
    }
  }

  /** a / b lies in [0, 1] when 0 <= a <= b and b > 0. */
  lemma RatioInUnit(a: real, b: real)
    requires 0.0 <= a <= b && 0.0 < b
    ensures 0.0 <= a / b <= 1.0
  {
    DivMonotone(a, b, b);
  }

  lemma RatioZeroIff(a: real, b: real)
    requires b != 0.0
    ensures a / b == 0.0 <==> a == 0.0
  {
  }

  lemma SelfRatio(x: real)
    requires x != 0.0
    ensures x / x == 1.0
  {
  }

  lemma FractionAtMostOne(n: int, t: int)
    requires 0 <= n <= t && 0 < t
    ensures 0.0 <= n as real / t as real <= 1.0
  {
    RatioInUnit(n as real, t as real);
  }

  // ----- Average precision -----

  /** The sum of the precisions at each hit of s, the first element of s
      standing at 1-based position pos with hit hits before it. */
  function ApSumFrom(s: seq<int>, pos: nat, hit: nat): (r: real)
    requires 1 <= pos
    ensures 0.0 <= r
    ensures hit < pos ==> r <= Ones(s) as real
    decreases |s|
  {
    if s == [] then 0.0
    else if s[0] == 1 then
      HitPrecisionBounds(hit, pos);
      (hit + 1) as real / pos as real + ApSumFrom(s[1..], pos + 1, hit + 1)
    else ApSumFrom(s[1..], pos + 1, hit)
  }

  /** The precision at a hit is positive, and at most 1 while hits trail
      positions. */
  lemma HitPrecisionBounds(hit: nat, pos: nat)
    requires 1 <= pos
    ensures 0.0 < (hit + 1) as real / pos as real
    ensures hit < pos ==> (hit + 1) as real / pos as real <= 1.0
  {
    DivMonotone(0.0, (hit + 1) as real, pos as real);
    assert 0.0 / pos as real == 0.0;
    if hit < pos {
      FractionAtMostOne(hit + 1, pos);
    }
  }

  /** `average_precision(bin_rels, total, k)` as a value. */
  function AveragePrecisionOf(bins: seq<int>, total: int, k: int): (ap: real)
    ensures total == 0 ==> ap == 0.0
    ensures total > 0 ==> ap >= 0.0
  {
    if total == 0 then 0.0 else ApSumFrom(PyPrefix(bins, k), 1, 0) / total as real
  }

  /** `average_precision`: the loop that counts hits and adds the precision
      at each one, divided by the number of relevant products. */
  method AveragePrecision(bins: seq<int>, total: int, k: int) returns (ap: real)
    ensures ap == AveragePrecisionOf(bins, total, k)
    ensures total == 0 ==> ap == 0.0
  {
    if total == 0 {
      return 0.0;
    }
    var top := PyPrefix(bins, k);
    var apSum := 0.0;
    var hit: nat := 0;
    for i := 0 to |top|
      invariant hit == Ones(top[..i]) && hit <= i
      invariant apSum + ApSumFrom(top[i..], i + 1, hit) == ApSumFrom(top, 1, 0)
    {
      assert top[i..][1..] == top[i + 1..];
      OnesStep(top, i);
      if top[i] == 1 {
        hit := hit + 1;
        apSum := apSum + hit as real / (i + 1) as real;
      }
    }
    ap := apSum / total as real;
  }

  /** With at least as many relevant products as hits in the top k,
      average precision lies in [0, 1]. */
  lemma AveragePrecisionBounds(bins: seq<int>, total: int, k: int)
    requires Ones(PyPrefix(bins, k)) <= total
    ensures 0.0 <= AveragePrecisionOf(bins, total, k) <= 1.0
  {
    var top := PyPrefix(bins, k);
    if total != 0 {
      var s := ApSumFrom(top, 1, 0);
      DivMonotone(s, Ones(top) as real, total as real);
      FractionAtMostOne(Ones(top), total);
    }
  }

  /** Each hit contributes a precision of at most 1, so average precision
      never exceeds recall over the same top k. */
  lemma AveragePrecisionAtMostRecall(bins: seq<int>, total: int, k: int)
    requires IsBinary(PyPrefix(bins, k)) && 0 <= total
    ensures AveragePrecisionOf(bins, total, k) <= Recall(bins, total, k)
  {
    var top := PyPrefix(bins, k);
    BinarySumIsOnes(top);
    if total != 0 {
      DivMonotone(ApSumFrom(top, 1, 0), Ones(top) as real, total as real);
    }
  }

  /** Hits in every position from pos on, with every earlier position a hit
      too, each contribute a precision of exactly 1. */
  lemma {:induction false} ApSumAllHits(s: seq<int>, pos: nat)
    requires 1 <= pos
    requires forall i :: 0 <= i < |s| ==> s[i] == 1
    ensures ApSumFrom(s, pos, pos - 1) == |s| as real
    decreases |s|
  {
    if s != [] {
      ApSumAllHits(s[1..], pos + 1);
      SelfRatio(pos as real);
    }
  }

  /** A ranking whose top k are all relevant, and which holds every
      relevant product there, has average precision 1. */
  lemma AveragePrecisionPerfect(bins: seq<int>, k: int)
    requires PyPrefix(bins, k) != []
    requires forall i :: 0 <= i < |PyPrefix(bins, k)| ==> PyPrefix(bins, k)[i] == 1
    ensures AveragePrecisionOf(bins, |PyPrefix(bins, k)|, k) == 1.0
  {
    ApSumAllHits(PyPrefix(bins, k), 1);
    SelfRatio(|PyPrefix(bins, k)| as real);
  }
}
