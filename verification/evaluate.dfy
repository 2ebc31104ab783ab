/** The evaluator: groups the submission by query, grades each ranked
    product against the labels, scores each query with the four metrics and
    their weighted composite, and averages the scores over the queries. */
module Evaluate {
  import opened Common
  import opened Submission
  import opened DiscountedGain
  import opened Metrics
  import opened Labels

  /** The keys of the accumulator of per-query scores. */
  datatype Metric = NdcgAt10 | ApAt20 | PrecisionAt10 | RecallAt30 | CompositeScore

  /** The scores of one query. */
  datatype QueryMetrics = QueryMetrics(ndcg: real, ap: real, precision: real, recall: real, composite: real)

  /** The averaged scores of a submission against one label set. */
  datatype Scores = Scores(ndcg: real, ap: real, precision: real, recall: real, composite: real, queriesScored: nat)

  /** `0.30 * nDCG@10 + 0.30 * AP@20 + 0.25 * R@30 + 0.15 * P@10`. The
      weights add up to 1: the composite of scores in [0, 1] is in [0, 1],
      and the composite of four equal scores is that score. */
  function Composite(ndcg: real, ap: real, recall: real, precision: real): (c: real)
    ensures 0.0 <= ndcg <= 1.0 && 0.0 <= ap <= 1.0 && 0.0 <= recall <= 1.0 && 0.0 <= precision <= 1.0
            ==> 0.0 <= c <= 1.0
    ensures ndcg == ap == recall == precision ==> c == ndcg
  {
    0.30 * ndcg + 0.30 * ap + 0.25 * recall + 0.15 * precision
  }

  // ----- Averages -----

  /** Python's `sum` of a list of scores. */
  function SumReal(xs: seq<real>): real
  {
    if xs == [] then 0.0 else SumReal(xs[..|xs| - 1]) + xs[|xs| - 1]
  }

  /** `_avg`: the mean of the list, 0.0 for an empty list. */
  function Avg(xs: seq<real>): (a: real)
    ensures xs == [] ==> a == 0.0
  {
    if xs == [] then 0.0 else SumReal(xs) / |xs| as real
  }

  lemma {:induction false} SumRealBounds(xs: seq<real>)
    requires forall i :: 0 <= i < |xs| ==> 0.0 <= xs[i] <= 1.0
    ensures 0.0 <= SumReal(xs) <= |xs| as real
  {
    if xs != [] {
      var init := xs[..|xs| - 1];
      assert forall i :: 0 <= i < |init| ==> init[i] == xs[i];
      SumRealBounds(init);
    }
  }

  /** The mean of scores in [0, 1] is in [0, 1]. */
  lemma AvgBounds(xs: seq<real>)
    requires forall i :: 0 <= i < |xs| ==> 0.0 <= xs[i] <= 1.0
    ensures 0.0 <= Avg(xs) <= 1.0
  {
    if xs != [] {
      SumRealBounds(xs);
      RatioInUnit(SumReal(xs), |xs| as real);
    }
  }

  // ----- Relevance vectors -----

  /** The grade of each ranked entry, for query q. */
  function GradesOf(labels: seq<Label>, q: string, es: seq<Entry>): (rels: seq<nat>)
    ensures |rels| == |es|
  {
    seq(|es|, i requires 0 <= i < |es| => LabelGrade(labels, q, es[i].productId))
  }

  /** The 0/1 relevance flags of a grade vector. */
  function Flags(rels: seq<nat>): (bins: seq<int>)
    ensures |bins| == |rels| && IsBinary(bins)
  {
    seq(|rels|, i requires 0 <= i < |rels| => if rels[i] >= 1 then 1 else 0)
  }

  /** The loop that maps each ranked product to its grade (0 when the
      query or the product has no label) and to its relevance flag. */
  method RelevanceVectors(lookup: map<string, map<string, nat>>, q: string, es: seq<Entry>)
    returns (rels: seq<nat>, bins: seq<int>)
    ensures |rels| == |es| && |bins| == |es|
    ensures forall i :: 0 <= i < |es| ==> rels[i] == Grade(lookup, q, es[i].productId)
    ensures forall i :: 0 <= i < |es| ==> (bins[i] == 1 <==> rels[i] >= 1) && (bins[i] == 0 <==> rels[i] == 0)
  {
    rels := [];
    bins := [];
    for i := 0 to |es|
      invariant |rels| == i && |bins| == i
      invariant forall j :: 0 <= j < i ==> rels[j] == Grade(lookup, q, es[j].productId)
      invariant forall j :: 0 <= j < i ==> bins[j] == if rels[j] >= 1 then 1 else 0
    {
      var rel := Grade(lookup, q, es[i].productId);
      rels := rels + [rel];
      bins := bins + [if rel >= 1 then 1 else 0];
    }
  }

  // ----- Scoring -----

  /** The scores of query q: its entries sorted by rank, graded, and
      measured with nDCG@10, AP@20, P@10 and R@30. */
  function QueryScore(rows: seq<Row>, labels: seq<Label>, q: string, d: Discount): QueryMetrics
  {
    var es := SortByRank(EntriesOf(rows, q));
    var rels := GradesOf(labels, q, es);
    var bins := Flags(rels);
    var total := RelevantCount(labels, q);
    var ndcg := Ndcg(rels, 10, d);
    var ap := AveragePrecisionOf(bins, total, 20);
    var p := Precision(bins, 10);
    var r := Recall(bins, total, 30);
    QueryMetrics(ndcg, ap, p, r, Composite(ndcg, ap, r, p))
  }

  /** Without distinct pairs the bounds fail: a relevant product listed
      twice counts as two hits against one relevant label row, so recall@30
      and AP@20 reach 2. */
  lemma DuplicateProductScoresTwo(d: Discount)
    ensures var qm := QueryScore([Row("q", 1, "p"), Row("q", 2, "p")], [Label("q", "p", 1)], "q", d);
      qm.recall == 2.0 && qm.ap == 2.0
  {
    DuplicateRanking();
    DuplicateFlags();
    assert RelevantCount([Label("q", "p", 1)], "q") == 1;
    TwoHits();
  }

  /** The ranking of the duplicate submission keeps both rows. */
  lemma DuplicateRanking()
    ensures SortByRank(EntriesOf([Row("q", 1, "p"), Row("q", 2, "p")], "q")) == [Entry(1, "p"), Entry(2, "p")]
  {
    var rows := [Row("q", 1, "p"), Row("q", 2, "p")];
    var es := [Entry(1, "p"), Entry(2, "p")];
    assert rows[..1] == [rows[0]];
    assert EntriesOf(rows, "q") == es;
    assert es[..1] == [es[0]];
  }

  /** Both listings of the relevant product are hits. */
  lemma DuplicateFlags()
    ensures Flags(GradesOf([Label("q", "p", 1)], "q", [Entry(1, "p"), Entry(2, "p")])) == [1, 1]
  {
    var labels := [Label("q", "p", 1)];
    assert LabelGrade(labels, "q", "p") == 1;
  }

  /** Two hits sum to 2, and their precisions 1/1 and 2/2 add up to 2. */
  lemma TwoHits()
    ensures Recall([1, 1], 1, 30) == 2.0 && AveragePrecisionOf([1, 1], 1, 20) == 2.0
  {
    var s: seq<int> := [1, 1];
    assert PyPrefix(s, 30) == s && PyPrefix(s, 20) == s;
    assert s[1..] == [1] && s[1..][1..] == [];
    assert ApSumFrom(s[1..][1..], 3, 2) == 0.0;
    assert ApSumFrom(s[1..], 2, 1) == 2.0 / 2.0 + 0.0;
  }

  /** The scores of the queries qs, in order. */
  function ScoresFor(rows: seq<Row>, labels: seq<Label>, qs: seq<string>, d: Discount): (ms: seq<QueryMetrics>)
    ensures |ms| == |qs|
  {
    if qs == [] then []
    else ScoresFor(rows, labels, qs[..|qs| - 1], d) + [QueryScore(rows, labels, qs[|qs| - 1], d)]
  }

  function Value(qm: QueryMetrics, m: Metric): real
  {
    match m
    case NdcgAt10 => qm.ndcg
    case ApAt20 => qm.ap
    case PrecisionAt10 => qm.precision
    case RecallAt30 => qm.recall
    case CompositeScore => qm.composite
  }

  /** One metric's list in the accumulator. */
  function Column(ms: seq<QueryMetrics>, m: Metric): (col: seq<real>)
    ensures |col| == |ms|
  {
    if ms == [] then [] else Column(ms[..|ms| - 1], m) + [Value(ms[|ms| - 1], m)]
  }

  /** Scoring one more query appends its value to every column. */
  lemma ColumnStep(ms: seq<QueryMetrics>, qm: QueryMetrics)
    ensures forall m :: Column(ms + [qm], m) == Column(ms, m) + [Value(qm, m)]
  {
    DropLast(ms, qm);
  }

  /** `evaluate_submission` as a value: each metric averaged over the
      queries of the submission, and the number of queries. */
  function EvaluationOf(rows: seq<Row>, labels: seq<Label>, d: Discount): Scores
  {
    var ms := ScoresFor(rows, labels, Qids(rows), d);
    Scores(Avg(Column(ms, NdcgAt10)), Avg(Column(ms, ApAt20)), Avg(Column(ms, PrecisionAt10)),
           Avg(Column(ms, RecallAt30)), Avg(Column(ms, CompositeScore)), |Qids(rows)|)
  }

  /** The grouping loop of `evaluate_submission`. */
  method GroupRows(rows: seq<Row>) returns (g: Grouping)
    ensures Groups(g, rows)
  {
    g := Grouping(map[], []);
    EmptyGroups();
    for i := 0 to |rows|
      invariant Groups(g, rows[..i])
    {
      AppendGroups(g, rows[..i], rows[i]);
      TakeOneMore(rows, i);
      g := Append(g, rows[i]);
    }
    assert rows[..|rows|] == rows;
  }

  /** The accumulator holds one list per metric, the column of the scores
      so far. */
  ghost predicate Holds(acc: map<Metric, seq<real>>, ms: seq<QueryMetrics>)
  {
    && acc.Keys == {NdcgAt10, ApAt20, PrecisionAt10, RecallAt30, CompositeScore}
    && acc[NdcgAt10] == Column(ms, NdcgAt10)
    && acc[ApAt20] == Column(ms, ApAt20)
    && acc[PrecisionAt10] == Column(ms, PrecisionAt10)
    && acc[RecallAt30] == Column(ms, RecallAt30)
    && acc[CompositeScore] == Column(ms, CompositeScore)
  }

  /** `metric_accum[m].append(...)` for each of the five metrics. */
  method Accumulate(acc: map<Metric, seq<real>>, ghost ms: seq<QueryMetrics>, qm: QueryMetrics)
    returns (acc': map<Metric, seq<real>>)
    requires Holds(acc, ms)
    ensures Holds(acc', ms + [qm])
  {
    ColumnStep(ms, qm);
    acc' := map[NdcgAt10 := acc[NdcgAt10] + [qm.ndcg], ApAt20 := acc[ApAt20] + [qm.ap],
                PrecisionAt10 := acc[PrecisionAt10] + [qm.precision], RecallAt30 := acc[RecallAt30] + [qm.recall],
                CompositeScore := acc[CompositeScore] + [qm.composite]];
  }

  /** The body of the per-query loop of `evaluate_submission`: sorts the
      query's entries by rank, looks up their grades, and runs the four
      metrics and the composite. */
  method ScoreQuery(lookup: map<string, map<string, nat>>, counts: map<string, nat>, group: seq<Entry>,
                    rows: seq<Row>, labels: seq<Label>, q: string, d: Discount) returns (qm: QueryMetrics)
    requires forall p :: Find(lookup, q, p) == LastRelevance(labels, q, p)
    requires Count(counts, q) == RelevantCount(labels, q)
    requires group == EntriesOf(rows, q)
    ensures qm == QueryScore(rows, labels, q, d)
  {
    var sorted := SortByRank(group);
    var rels, bins := RelevanceVectors(lookup, q, sorted);
    assert rels == GradesOf(labels, q, sorted);
    assert bins == Flags(rels);
    var total := Count(counts, q);
    var ndcg := NdcgAtK(rels, 10, d);
    var ap := AveragePrecision(bins, total, 20);
    var p := Precision(bins, 10);
    var r := Recall(bins, total, 30);
    qm := QueryMetrics(ndcg, ap, p, r, Composite(ndcg, ap, r, p));
  }

  /** `evaluate_submission`: builds the label lookup, groups the rows,
      scores every group in order of first appearance, and averages. */
  method EvaluateSubmission(rows: seq<Row>, labels: seq<Label>, d: Discount) returns (res: Scores)
    ensures res == EvaluationOf(rows, labels, d)
  {
    var lookup, counts := BuildLabelLookup(labels);
    var g := GroupRows(rows);
    var acc := ScoreGroups(lookup, counts, g, rows, labels, d);
    res := Scores(Avg(acc[NdcgAt10]), Avg(acc[ApAt20]), Avg(acc[PrecisionAt10]),
                  Avg(acc[RecallAt30]), Avg(acc[CompositeScore]), |g.order|);
  }

  /** The per-query loop of `evaluate_submission`: one score per group, in
      the order the groups were first seen. */
  method ScoreGroups(lookup: map<string, map<string, nat>>, counts: map<string, nat>, g: Grouping,
                     rows: seq<Row>, labels: seq<Label>, d: Discount) returns (acc: map<Metric, seq<real>>)
    requires forall q, p :: Find(lookup, q, p) == LastRelevance(labels, q, p)
    requires forall q :: Count(counts, q) == RelevantCount(labels, q)
    requires Groups(g, rows)
    ensures Holds(acc, ScoresFor(rows, labels, g.order, d))
  {
    acc := map[NdcgAt10 := [], ApAt20 := [], PrecisionAt10 := [], RecallAt30 := [], CompositeScore := []];
    ghost var done: seq<QueryMetrics> := [];
    for i := 0 to |g.order|
      invariant done == ScoresFor(rows, labels, g.order[..i], d)
      invariant Holds(acc, done)
    {
      var q := g.order[i];
      var qm := ScoreQuery(lookup, counts, g.groups[q], rows, labels, q, d);
      ScoresForStep(rows, labels, g.order[..i], q, d);
      TakeOneMore(g.order, i);
      acc := Accumulate(acc, done, qm);
      done := done + [qm];
    }
    assert g.order[..|g.order|] == g.order;
  }

  lemma ScoresForStep(rows: seq<Row>, labels: seq<Label>, qs: seq<string>, q: string, d: Discount)
    ensures ScoresFor(rows, labels, qs + [q], d) == ScoresFor(rows, labels, qs, d) + [QueryScore(rows, labels, q, d)]
  {
    DropLast(qs, q);
  }

  // ----- Properties of the evaluation -----

  /** An empty submission scores 0.0 on every metric and scores no query. */
  lemma EvaluationEmpty(labels: seq<Label>, d: Discount)
    ensures EvaluationOf([], labels, d) == Scores(0.0, 0.0, 0.0, 0.0, 0.0, 0)
  {
  }

  /** `queries_scored` is the number of distinct query ids. */
  lemma EvaluationCount(rows: seq<Row>, labels: seq<Label>, d: Discount)
    ensures EvaluationOf(rows, labels, d).queriesScored == |QidSet(rows)|
  {
    QidsCount(rows);
  }

  /** A query without any label row scores 0.0 on every metric. */
  lemma UnlabeledQueryScoresZero(rows: seq<Row>, labels: seq<Label>, q: string, d: Discount)
    requires q !in LabelQids(labels)
    ensures QueryScore(rows, labels, q, d) == QueryMetrics(0.0, 0.0, 0.0, 0.0, 0.0)
  {
    var es := SortByRank(EntriesOf(rows, q));
    var rels := GradesOf(labels, q, es);
    UnlabeledGradesZero(labels, q, es);
    NdcgOfZeros(rels, 10, d);
    PrecisionOfZeros(Flags(rels), 10);
  }

  /** Without label rows for q, every grade is 0. */
  lemma UnlabeledGradesZero(labels: seq<Label>, q: string, es: seq<Entry>)
    requires q !in LabelQids(labels)
    ensures var rels := GradesOf(labels, q, es); forall i :: 0 <= i < |rels| ==> rels[i] == 0
  {
  }

  /** Over entries with distinct products, the hits of a 0/1 vector whose
      hit positions name products of S number at most |S|. */
  lemma {:induction false} HitsAtMost(es: seq<Entry>, s: seq<int>, S: set<string>)
    requires |s| <= |es| && DistinctProducts(es)
    requires forall i :: 0 <= i < |s| && s[i] == 1 ==> es[i].productId in S
    ensures Ones(s) <= |S|
  {
    if s != [] {
      DistinctTail(es);
      var rest := S - {es[0].productId};
      forall i | 0 <= i < |s[1..]| && s[1..][i] == 1 ensures es[1..][i].productId in rest {
        assert s[1..][i] == s[i + 1];
        assert es[1..][i] in es[1..];
      }
      HitsAtMost(es[1..], s[1..], rest);
    }
  }

  /** With distinct pairs, the hits in any top k of a query are at most its
      number of relevant label rows. */
  lemma HitsAtMostRelevant(rows: seq<Row>, labels: seq<Label>, q: string, k: int)
    requires DistinctPairs(rows)
    ensures Ones(PyPrefix(Flags(GradesOf(labels, q, SortByRank(EntriesOf(rows, q)))), k)) <= RelevantCount(labels, q)
  {
    var es := SortByRank(EntriesOf(rows, q));
    var bins := Flags(GradesOf(labels, q, es));
    var top := PyPrefix(bins, k);
    EntriesDistinct(rows, q);
    PermutationDistinct(EntriesOf(rows, q), es);
    forall i | 0 <= i < |top| && top[i] == 1 ensures es[i].productId in RelevantProducts(labels, q) {
      RelevantProductsIff(labels, q, es[i].productId);
    }
    HitsAtMost(es, top, RelevantProducts(labels, q));
    RelevantCountBound(labels, q);
  }

  /** Every score of qm lies in [0, 1]. */
  predicate InUnit(qm: QueryMetrics)
  {
    && 0.0 <= qm.ndcg <= 1.0 && 0.0 <= qm.ap <= 1.0 && 0.0 <= qm.precision <= 1.0
    && 0.0 <= qm.recall <= 1.0 && 0.0 <= qm.composite <= 1.0
  }

  predicate AllInUnit(ms: seq<QueryMetrics>)
  {
    forall i :: 0 <= i < |ms| ==> InUnit(ms[i])
  }

  /** With distinct (query id, product id) pairs, every score of a query
      lies in [0, 1]. */
  lemma QueryScoreBounds(rows: seq<Row>, labels: seq<Label>, q: string, d: Discount)
    requires DistinctPairs(rows)
    ensures InUnit(QueryScore(rows, labels, q, d))
  {
    var es := SortByRank(EntriesOf(rows, q));
    var bins := Flags(GradesOf(labels, q, es));
    var total := RelevantCount(labels, q);
    HitsAtMostRelevant(rows, labels, q, 20);
    HitsAtMostRelevant(rows, labels, q, 30);
    AveragePrecisionBounds(bins, total, 20);
    RecallIsHitShare(bins, total, 30);
    if PyPrefix(bins, 10) != [] {
      PrecisionIsHitRate(bins, 10);
    }
  }

  /** The i-th score of the queries qs is the score of qs[i]. */
  lemma {:induction false} ScoresForAt(rows: seq<Row>, labels: seq<Label>, qs: seq<string>, d: Discount, i: nat)
    requires i < |qs|
    ensures ScoresFor(rows, labels, qs, d)[i] == QueryScore(rows, labels, qs[i], d)
  {
    if i < |qs| - 1 {
      ScoresForAt(rows, labels, qs[..|qs| - 1], d, i);
    }
  }

  /** The i-th entry of a metric's column is that metric of the i-th score. */
  lemma {:induction false} ColumnAt(ms: seq<QueryMetrics>, m: Metric, i: nat)
    requires i < |ms|
    ensures Column(ms, m)[i] == Value(ms[i], m)
  {
    if i < |ms| - 1 {
      ColumnAt(ms[..|ms| - 1], m, i);
    }
  }

  /** With distinct (query id, product id) pairs, every averaged score
      lies in [0, 1]. */
  lemma EvaluationBounds(rows: seq<Row>, labels: seq<Label>, d: Discount)
    requires DistinctPairs(rows)
    ensures var s := EvaluationOf(rows, labels, d);
      && 0.0 <= s.ndcg <= 1.0 && 0.0 <= s.ap <= 1.0 && 0.0 <= s.precision <= 1.0
      && 0.0 <= s.recall <= 1.0 && 0.0 <= s.composite <= 1.0
  {
    var qs := Qids(rows);
    var ms := ScoresFor(rows, labels, qs, d);
    ScoresInUnit(rows, labels, qs, d);
    AvgInUnit(ms, NdcgAt10);
    AvgInUnit(ms, ApAt20);
    AvgInUnit(ms, PrecisionAt10);
    AvgInUnit(ms, RecallAt30);
    AvgInUnit(ms, CompositeScore);
  }

  lemma ScoresInUnit(rows: seq<Row>, labels: seq<Label>, qs: seq<string>, d: Discount)
    requires DistinctPairs(rows)
    ensures AllInUnit(ScoresFor(rows, labels, qs, d))
  {
    forall i | 0 <= i < |qs| ensures InUnit(ScoresFor(rows, labels, qs, d)[i]) {
      ScoresForAt(rows, labels, qs, d, i);
      QueryScoreBounds(rows, labels, qs[i], d);
    }
  }

  /** The mean of one metric over scores in [0, 1] is in [0, 1]. */
  lemma AvgInUnit(ms: seq<QueryMetrics>, m: Metric)
    requires AllInUnit(ms)
    ensures 0.0 <= Avg(Column(ms, m)) <= 1.0
  {
    var col := Column(ms, m);
    forall i | 0 <= i < |col| ensures 0.0 <= col[i] <= 1.0 {
      ColumnAt(ms, m, i);
    }
    AvgBounds(col);
  }

  // ----- Real and synthetic labels -----

  /** The label sets named in the weights of the final report. */
  datatype LabelSet = RealLabels | SyntheticLabels

  datatype Report = Report(team: string, realScores: Option<Scores>, synthetic: Scores,
                           weightedFinal: real, weights: map<LabelSet, real>)

  /** The default weights `w_real` and `w_synth` of `full_evaluation`. */
  const DefaultRealWeight: real := 0.7
  const DefaultSynthWeight: real := 0.3

  /** `w_real * real_composite + w_synth * synth_composite`. */
  function Blend(wa: real, a: real, wb: real, b: real): real
  {
    wa * a + wb * b
  }

  /** `full_evaluation` as a value. */
  function FullEvaluationOf(rows: seq<Row>, labelsReal: Option<seq<Label>>, labelsSynth: seq<Label>,
                            team: string, wReal: real, wSynth: real, d: Discount): Report
  {
    var synth := EvaluationOf(rows, labelsSynth, d);
    match labelsReal
    case Some(lr) =>
      var realScores := EvaluationOf(rows, lr, d);
      Report(team, Some(realScores), synth, Blend(wReal, realScores.composite, wSynth, synth.composite),
             map[RealLabels := wReal, SyntheticLabels := wSynth])
    case None =>
      Report(team, None, synth, synth.composite, map[SyntheticLabels := 1.0])
  }

  /** `full_evaluation`: scores the submission against the synthetic labels
      and, when present, the real ones, and blends the two composites. */
  method FullEvaluation(rows: seq<Row>, labelsReal: Option<seq<Label>>, labelsSynth: seq<Label>,
                        team: string, wReal: real, wSynth: real, d: Discount) returns (rep: Report)
    ensures rep == FullEvaluationOf(rows, labelsReal, labelsSynth, team, wReal, wSynth, d)
  {
    var synth := EvaluateSubmission(rows, labelsSynth, d);
    if labelsReal.Some? {
      var realScores := EvaluateSubmission(rows, labelsReal.value, d);
      rep := Report(team, Some(realScores), synth, Blend(wReal, realScores.composite, wSynth, synth.composite),
                    map[RealLabels := wReal, SyntheticLabels := wSynth]);
    } else {
      rep := Report(team, None, synth, synth.composite, map[SyntheticLabels := 1.0]);
    }
  }

  /** Without real labels the report has no real scores, its final score is
      the synthetic composite and its only weight is synthetic 1.0; with
      them it carries both score blocks, blends the two composites, and
      names both weights. This spells out the structure the source builds;
      what it promises about the final score is `WeightedFinalBounds`. */
  lemma FullEvaluationShape(rows: seq<Row>, labelsReal: Option<seq<Label>>, labelsSynth: seq<Label>,
                            team: string, wReal: real, wSynth: real, d: Discount)
    ensures var rep := FullEvaluationOf(rows, labelsReal, labelsSynth, team, wReal, wSynth, d);
      && rep.team == team && rep.synthetic == EvaluationOf(rows, labelsSynth, d)
      && (labelsReal.None? ==> rep.realScores.None? && rep.weightedFinal == rep.synthetic.composite
                               && rep.weights == map[SyntheticLabels := 1.0])
      && (labelsReal.Some? ==> rep.realScores == Some(EvaluationOf(rows, labelsReal.value, d))
                               && rep.weightedFinal == Blend(wReal, rep.realScores.value.composite, wSynth, rep.synthetic.composite)
                               && rep.weights == map[RealLabels := wReal, SyntheticLabels := wSynth])
  {
  }

  /** A blend with non-negative weights adding up to 1 of composites in
      [0, 1] is in [0, 1]; with distinct pairs the final score always is. */
  lemma WeightedFinalBounds(rows: seq<Row>, labelsReal: Option<seq<Label>>, labelsSynth: seq<Label>,
                            team: string, wReal: real, wSynth: real, d: Discount)
    requires DistinctPairs(rows)
    requires 0.0 <= wReal && 0.0 <= wSynth && wReal + wSynth == 1.0
    ensures 0.0 <= FullEvaluationOf(rows, labelsReal, labelsSynth, team, wReal, wSynth, d).weightedFinal <= 1.0
  {
    EvaluationBounds(rows, labelsSynth, d);
    if labelsReal.Some? {
      EvaluationBounds(rows, labelsReal.value, d);
      var a := EvaluationOf(rows, labelsReal.value, d).composite;
      var b := EvaluationOf(rows, labelsSynth, d).composite;
      BlendBounds(a, b, wReal, wSynth);
    }
  }

  /** With the default weights 0.7 and 0.3, the final score of a submission
      without duplicate pairs lies in [0, 1]. */
  lemma DefaultWeightedFinalBounds(rows: seq<Row>, labelsReal: Option<seq<Label>>, labelsSynth: seq<Label>,
                                   team: string, d: Discount)
    requires DistinctPairs(rows)
    ensures var rep := FullEvaluationOf(rows, labelsReal, labelsSynth, team, DefaultRealWeight, DefaultSynthWeight, d);
      0.0 <= rep.weightedFinal <= 1.0
  {
    WeightedFinalBounds(rows, labelsReal, labelsSynth, team, DefaultRealWeight, DefaultSynthWeight, d);
  }

  /** A blend of two scores in [0, 1] with non-negative weights adding up
      to 1 is in [0, 1]. */
  lemma BlendBounds(a: real, b: real, wa: real, wb: real)
    requires 0.0 <= a <= 1.0 && 0.0 <= b <= 1.0
    requires 0.0 <= wa && 0.0 <= wb && wa + wb == 1.0
    ensures 0.0 <= Blend(wa, a, wb, b) <= 1.0
  {
    ScaleInUnit(wa, a);
    ScaleInUnit(wb, b);
    SumBelow(wa * a, wb * b, wa, wb);
  }

  lemma SumBelow(x: real, y: real, wa: real, wb: real)
    requires 0.0 <= x <= wa && 0.0 <= y <= wb && wa + wb == 1.0
    ensures 0.0 <= x + y <= 1.0
  {
  }

  lemma ScaleInUnit(w: real, a: real)
    requires 0.0 <= w && 0.0 <= a <= 1.0
    ensures 0.0 <= w * a <= w
  {
    assert w * (1.0 - a) >= 0.0;
  }
}
