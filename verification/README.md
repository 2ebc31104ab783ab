# tamu25 submission validator and ranking evaluator, in Dafny

This project models the scoring core of the `tamu25` datathon package.
Teams submit ranked product lists for shopping queries as JSON rows of
`(query_id, rank, product_id)`. The package does two things with them.

- **The validator** (`validate_submission`) takes the submission, a product
  catalog and the real and synthetic query lists. In one pass it collects
  every defect it finds:
  - malformed rows;
  - duplicate `(query_id, product_id)` pairs;
  - unknown products;
  - required queries without rows;
  - queries with fewer than 30 rows;
  - queries whose ranks are not exactly 1..N.

  It then reports `status`, `queries_checked` and `avg_depth`.
- **The evaluator** (`evaluate_submission`, `full_evaluation` and the
  metrics) works as follows:
  - it builds a relevance lookup from the label rows;
  - it groups the submission by query and sorts each group by rank;
  - it scores each query with nDCG@10, AP@20, P@10 and R@30 and combines
    them into a weighted composite;
  - it averages each score over the queries;
  - it blends the real-label composite with the synthetic-label composite.

The model keeps the source's own form:
- the loops (the row scan, the coverage and per-query checks, the label
  lookup, the grouping, the DCG and AP accumulators) are methods with
  loop invariants;
- each such method is proved equal to, or characterised by, a
  specification function, and the properties are proved as lemmas about
  those functions;
- the pure parts (`ndcg_at_k`, `precision_at_k`, `recall_at_k`, `_avg`,
  the composite and `full_evaluation`'s result) are functions.

Modules and files:
- `Common` (`common.dfy`): `Option`, Python's `s[:k]` slice, `sum` and the
  count of ones in a 0/1 vector.
- `Submission` (`submission.dfy`): submission rows, and the two operations
  both halves share:
  - grouping by query, a `defaultdict(list)` whose keys keep their order
    of first insertion;
  - Python's stable `sorted(..., key=rank)`.
- `DiscountedGain` (`dcg.dfy`): DCG and its ideal ordering. The discount
  `log2(i + 1)` is a parameter `d: Discount`, any positive, non-decreasing
  function of the 1-based position.
- `Metrics` (`metrics.dfy`): nDCG, precision, recall and average precision.
- `Labels` (`labels.dfy`): the label lookup and the per-query count of
  relevant label rows.
- `Evaluate` (`evaluate.dfy`): `evaluate_submission` and `full_evaluation`.
- `Validate` (`validate.dfy`): `_extract_products` and `validate_submission`.

Inputs that the source reads from files arrive as already-parsed values:
- a submission file is `FileMissing`, `NotAnArray`, or an array of raw rows
  whose fields may be absent;
- a catalog is a list of ids, a list of objects, or not a list;
- query lists are sequences of ids;
- label files are sequences of `Label` rows.

Floats are modelled as `real`.

## Model

| member | source | states |
|---|---|---|
| Common.Cut | tamu25/metrics.py:12 | The length of Python's `s[:k]` never exceeds the length of `s`. For `k >= 0` it is `k` or the full length. |
| Common.PyPrefix | tamu25/metrics.py:12 | Python's `s[:k]` is a prefix of `s`, of the length `Cut` gives (negative `k` counts from the end). |
| Common.Sum | tamu25/metrics.py:30 | Python's `sum`, as `precision_at_k` and `recall_at_k` (line 36) use it. `BinarySumIsOnes` states that on a 0/1 vector it counts the ones, and `SumOfZeros` that zeros sum to 0. |
| Common.BinarySumIsOnes | tamu25/metrics.py:30 | On a 0/1 vector, `sum` is the number of ones. |
| Submission.Qids | tamu25/evaluate.py:44-46 | The grouping's keys are distinct, in order of first appearance. A query id is a key exactly when some row carries it. |
| Submission.EntriesOf | tamu25/evaluate.py:46 | A query's group is empty exactly when no row has that query. It is never longer than the submission. |
| Submission.EntriesOfSource | tamu25/evaluate.py:45-46 | Every entry in a query's group comes from a row of that query. |
| Submission.GroupSizesSum | tamu25/validate.py:134-139 | The group sizes sum to the number of rows, so every row lands in exactly one group. |
| Submission.QidsCount | tamu25/validate.py:135-137 | There are as many groups as distinct query ids. |
| Submission.EmptyGroups | tamu25/evaluate.py:44 | An empty `defaultdict(list)` is the grouping of no rows. |
| Submission.Append | tamu25/evaluate.py:46 | `per_query[qid].append((rank, pid))`, also at validate.py:125: the keys gain the row's query, that query's list gains the row's entry at its end, every other list is unchanged, and a new query goes to the end of the key order. `AppendGroups` proves it keeps the grouping exact. |
| Submission.AppendGroups | tamu25/evaluate.py:45-46 | Appending one row keeps the dictionary equal to the grouping of the rows seen so far: the keys in first-insertion order, and each key's list holding its query's entries. |
| Submission.InsertByRank | tamu25/evaluate.py:53 | One insertion step of the sort adds exactly the inserted entry. |
| Submission.InsertByRankSorted | tamu25/evaluate.py:53 | Inserting into a rank-sorted list keeps it sorted. |
| Submission.SortByRank | tamu25/evaluate.py:53 | `sorted(rows, key=rank)` has the same length, is a permutation of its input, and is ascending by rank. |
| Submission.SortByRankStable | tamu25/evaluate.py:53 | The sort is stable: entries of equal rank keep their relative order. |
| Submission.EntriesDistinct | tamu25/validate.py:115-119 | When no `(query_id, product_id)` pair repeats, each query's group names every product at most once. |
| Submission.PermutationDistinct | tamu25/evaluate.py:53 | Sorting a group keeps its products distinct. |
| DiscountedGain.Pow2 | tamu25/metrics.py:13 | `2**rel` is at least 1. `Gain` and `GainMonotone` build on it. |
| DiscountedGain.Gain | tamu25/metrics.py:13 | The gain `2**rel - 1` is positive exactly when the grade is at least 1. |
| DiscountedGain.GainMonotone | tamu25/metrics.py:13 | A higher grade never gains less. |
| DiscountedGain.Term | tamu25/metrics.py:13 | Every DCG term is non-negative. It is zero exactly when the grade is zero. |
| DiscountedGain.DcgFrom | tamu25/metrics.py:10-14 | DCG is non-negative. |
| DiscountedGain.Dcg | tamu25/metrics.py:10-14 | `dcg_at_k(rels, k)`: the DCG of `rels[:k]`, which is non-negative. `DcgAtK` proves the loop computes it, and `DcgPrefixOnly` and `DcgFromZeroIff` state what it depends on and when it is zero. |
| DiscountedGain.DcgAtK | tamu25/metrics.py:10-14 | The accumulator loop over `rels[:k]` computes the DCG of the grades in `rels[:k]`, which is non-negative. |
| DiscountedGain.DcgFromPrefixOnly | tamu25/metrics.py:12 | The DCG of the first m grades depends only on those m grades. |
| DiscountedGain.DcgPrefixOnly | tamu25/metrics.py:12 | `dcg_at_k` depends only on `rels[:k]`. Changing grades at positions `>= k` leaves it unchanged. |
| DiscountedGain.DcgFromZeroIff | tamu25/metrics.py:12-13 | DCG is zero exactly when every grade it covers is zero. |
| DiscountedGain.ArgMaxIsMax | tamu25/metrics.py:19 | The position the ideal ordering picks first holds a largest grade. |
| DiscountedGain.SortDesc | tamu25/metrics.py:19 | `sorted(rels, reverse=True)` has the same length and is a permutation of `rels`. |
| DiscountedGain.IdealIsSortedPermutation | tamu25/metrics.py:19 | The ideal list is a descending-sorted permutation of `rels`. |
| DiscountedGain.SortedDescUnique | tamu25/metrics.py:19 | Two descending-sorted permutations of the same grades are equal, so the ideal list is determined by the grades. |
| DiscountedGain.SortDescOfSorted | tamu25/metrics.py:19 | An already descending list is its own ideal ordering. |
| DiscountedGain.SwapUp | tamu25/metrics.py:13 | Swapping a larger grade one position forward never lowers the DCG. |
| DiscountedGain.MaxToFront | tamu25/metrics.py:13 | Moving a grade that is at least every grade before it to the front never lowers the DCG. |
| DiscountedGain.IdealDominates | tamu25/metrics.py:18-20 | The DCG of any ranking is at most the DCG of its ideal ordering. |
| DiscountedGain.IdealZeroIff | tamu25/metrics.py:19-21 | For `k >= 1`, the ideal DCG is zero exactly when every grade is zero. |
| Metrics.Ndcg | tamu25/metrics.py:17-23 | nDCG lies in [0, 1]. |
| Metrics.NdcgAtK | tamu25/metrics.py:17-23 | Two runs of the DCG loop, one over the ranking and one over the ideal list, give `Ndcg`: the ratio, or 0 when the ideal DCG is 0. |
| Metrics.NdcgZeroIff | tamu25/metrics.py:17-23 | For every `k`, negative ones included, nDCG is 0 exactly when no grade in `rels[:k]` is positive. |
| Metrics.NdcgOfZeros | tamu25/metrics.py:21-22 | A ranking without a relevant product scores 0. |
| Metrics.NdcgOfIdealIsOne | tamu25/metrics.py:17-23 | A ranking whose `rels[:k]` equals the ideal list's first k grades, with a positive grade among them, scores exactly 1, whatever the order below k. |
| Metrics.DcgPositive | tamu25/metrics.py:12-13 | A positive grade in `rels[:k]` makes the DCG nonzero. |
| Metrics.Precision | tamu25/metrics.py:26-29 | An empty top-k gives 0. |
| Metrics.PrecisionOfZeros | tamu25/metrics.py:26-30 | An all-zero vector has precision 0. |
| Metrics.PrecisionIsHitRate | tamu25/metrics.py:26-30 | On a 0/1 vector with a non-empty top k, precision is the number of hits over the length of the top k, and lies in [0, 1]. |
| Metrics.Recall | tamu25/metrics.py:33-35 | With no relevant products, recall is 0 whatever the vector holds. |
| Metrics.RecallIsHitShare | tamu25/metrics.py:33-36 | On a 0/1 top k and with a non-zero `total_relevant`, recall is the hits in the top k over `total_relevant`. Recall lies in [0, 1] whenever the hits do not exceed `total_relevant`. |
| Metrics.ApSumFrom | tamu25/metrics.py:42-48 | The summed precisions at the hits are non-negative. While hits trail positions, the sum is at most the number of hits. |
| Metrics.HitPrecisionBounds | tamu25/metrics.py:47 | Each term `hit / i` added at a hit is positive and at most 1, because `hit <= i`. |
| Metrics.AveragePrecisionOf | tamu25/metrics.py:39-48 | `average_precision` as a value: 0.0 when `total_relevant == 0` and non-negative when it is positive. `AveragePrecision` proves the loop computes it, and `AveragePrecisionBounds`, `AveragePrecisionAtMostRecall` and `AveragePrecisionPerfect` state its range. |
| Metrics.AveragePrecision | tamu25/metrics.py:39-48 | The loop computes `ap_sum / total_relevant`, with `hit` equal to the number of ones seen so far and `hit <= i`. The result is 0.0 when `total_relevant == 0`. |
| Metrics.AveragePrecisionBounds | tamu25/metrics.py:39-48 | AP lies in [0, 1] when there are at least as many relevant products as hits in the top k. |
| Metrics.AveragePrecisionAtMostRecall | tamu25/metrics.py:39-48 | On a 0/1 vector, AP never exceeds `hits / total_relevant`, which is the recall over the same top k. |
| Metrics.ApSumAllHits | tamu25/metrics.py:42-48 | When every position is a hit, every precision term is 1, so the sum is the number of positions. |
| Metrics.AveragePrecisionPerfect | tamu25/metrics.py:39-48 | A top k made only of hits, with exactly that many relevant products, has AP exactly 1. |
| Labels.LastRelevance | tamu25/evaluate.py:23-27 | Only a query that has label rows can have a recorded grade. |
| Labels.LabelGrade | tamu25/evaluate.py:57 | The grade `label_lookup[qid].get(pid, 0)` reads, taken from the label rows: positive only for a labelled query. `LastRelevanceIsLast` and `RelevantProductsIff` state which row it comes from. |
| Labels.Grade | tamu25/evaluate.py:57 | `label_lookup[qid].get(pid, 0)` on a lookup: positive only when the lookup holds the pair. On the lookup `BuildLabelLookup` builds, whose entries are the last grades of the label rows, it agrees with `LabelGrade`. |
| Labels.RelevantCount | tamu25/evaluate.py:28-29 | The relevant-row count never exceeds the number of label rows. It is positive only for a labelled query. |
| Labels.Find | tamu25/evaluate.py:57 | `label_lookup[qid]` read at `pid`, absent when either key is missing. `BuildLabelLookup` proves that on the built lookup it is the last grade of the pair. |
| Labels.Count | tamu25/evaluate.py:61 | `relevant_counts[qid]` on a `defaultdict(int)`, 0 for a missing key. `BuildLabelLookup` proves that on the built counts it is `RelevantCount`. |
| Labels.Put | tamu25/evaluate.py:27 | `lookup[qid][pid] = rel` adds the query key and changes the entry of that one pair only. |
| Labels.BuildLabelLookup | tamu25/evaluate.py:20-30 | The loop yields a lookup whose keys are the labelled queries and whose `(q, p)` entry is the grade of the last label row for that pair. It also yields counts whose keys are the queries with a relevant row and whose value is the number of rows with grade `>= 1`. |
| Labels.LookupStep | tamu25/evaluate.py:27 | Recording one more label row keeps the lookup equal to the last grade of every pair. |
| Labels.CountsStep | tamu25/evaluate.py:28-29 | Counting a row with grade `>= 1` keeps the counts exact. |
| Labels.CountsSkip | tamu25/evaluate.py:28 | A row with grade 0 leaves the counts exact without change. |
| Labels.LabelStep | tamu25/evaluate.py:23-29 | One more label row adds its query and overrides the grade of its own pair only. It raises its query's relevant count by one exactly when its grade is `>= 1`. |
| Labels.LastRelevanceNoneIff | tamu25/evaluate.py:27 | A pair has no recorded grade exactly when no label row names it. |
| Labels.LastRelevanceIsLast | tamu25/evaluate.py:23-27 | Later rows overwrite earlier ones: the recorded grade is that of the last row for the pair. |
| Labels.RelevantProductsIff | tamu25/evaluate.py:27 | A product is among a query's relevant products exactly when its final grade is `>= 1`. |
| Labels.RelevantCountBound | tamu25/evaluate.py:28-29 | `relevant_counts[qid]` is at least the number of distinct products whose final grade is `>= 1`. |
| Evaluate.Composite | tamu25/evaluate.py:70 | The weights 0.30, 0.30, 0.25 and 0.15 sum to 1. So the composite lies in [0, 1] when its four inputs do, and equals their common value when they agree. |
| Evaluate.Avg | tamu25/evaluate.py:78-79 | `_avg` of an empty list is 0.0. |
| Evaluate.SumReal | tamu25/evaluate.py:79 | `sum(lst)` in `_avg`. `SumRealBounds` states that values in [0, 1] sum to between 0 and their number. |
| Evaluate.SumRealBounds | tamu25/evaluate.py:79 | A sum of values in [0, 1] lies between 0 and the number of values. |
| Evaluate.AvgBounds | tamu25/evaluate.py:78-79 | The average of values in [0, 1] lies in [0, 1]. |
| Evaluate.GradesOf | tamu25/evaluate.py:56-58 | `rels` has the group's length. |
| Evaluate.Flags | tamu25/evaluate.py:59 | `bin_rels` has the length of `rels` and holds only 0 and 1. |
| Evaluate.RelevanceVectors | tamu25/evaluate.py:54-59 | The loop yields `rels` and `bin_rels` of the group's length. `rels[i]` is the lookup grade of the i-th product, or 0 when it has none, and `bin_rels[i] == 1` exactly when `rels[i] >= 1`. |
| Evaluate.UnlabeledGradesZero | tamu25/evaluate.py:57 | Every product of a query without labels gets grade 0. |
| Evaluate.UnlabeledQueryScoresZero | tamu25/evaluate.py:57-70 | A query without labels scores 0 on all four metrics and on the composite. |
| Evaluate.HitsAtMostRelevant | tamu25/evaluate.py:56-61 | Without duplicate pairs, the hits in any top k of a query are at most `relevant_counts[qid]`. |
| Evaluate.QueryScoreBounds | tamu25/evaluate.py:61-70 | Without duplicate pairs, every metric of a query and its composite lie in [0, 1]. |
| Evaluate.QueryScore | tamu25/evaluate.py:52-70 | A query's score record. `ScoreQuery` proves the loop body computes it. `QueryScoreBounds` puts it in [0, 1] and `UnlabeledQueryScoresZero` makes it 0 for a query without labels. |
| Evaluate.DuplicateProductScoresTwo | tamu25/evaluate.py:56-67 | A relevant product ranked twice against one relevant label row gives recall@30 and AP@20 equal to 2, so the bounds need distinct pairs. |
| Evaluate.ScoresFor | tamu25/evaluate.py:52-76 | There is one score record per query. |
| Evaluate.Column | tamu25/evaluate.py:72-76 | Each metric list has one value per scored query. |
| Evaluate.ColumnStep | tamu25/evaluate.py:72-76 | Scoring one more query appends its value to each of the five lists. |
| Evaluate.GroupRows | tamu25/evaluate.py:44-46 | The grouping loop yields the grouping of the rows: keys in first-appearance order, each key's list its query's entries in submission order. |
| Evaluate.Accumulate | tamu25/evaluate.py:72-76 | The five appends keep `metrics_acc` equal to the per-metric lists of the queries scored so far. |
| Evaluate.ScoreQuery | tamu25/evaluate.py:53-70 | Sorting a group, building its vectors and computing the four metrics and the composite gives that query's score record. |
| Evaluate.ScoreGroups | tamu25/evaluate.py:52-76 | The per-query loop leaves in `metrics_acc` the lists of the score records of all groups, in group order. |
| Evaluate.EvaluateSubmission | tamu25/evaluate.py:33-88 | The result is the per-metric averages of the query scores and the number of groups. |
| Evaluate.EvaluationOf | tamu25/evaluate.py:78-88 | The `evaluate_submission` result as a value. `EvaluateSubmission` proves the method computes it, and `EvaluationEmpty`, `EvaluationCount` and `EvaluationBounds` state its properties. |
| Evaluate.EvaluationEmpty | tamu25/evaluate.py:78-88 | With no rows, every average is 0.0 and `queries_scored` is 0. |
| Evaluate.EvaluationCount | tamu25/evaluate.py:87 | `queries_scored` is the number of distinct query ids. |
| Evaluate.EvaluationBounds | tamu25/evaluate.py:78-86 | Without duplicate pairs, every averaged metric and the averaged composite lie in [0, 1]. |
| Evaluate.FullEvaluation | tamu25/evaluate.py:91-126 | The report is the one `FullEvaluationShape` describes. |
| Evaluate.FullEvaluationOf | tamu25/evaluate.py:99-126 | The `full_evaluation` report as a value. `FullEvaluation` proves the method computes it. `FullEvaluationShape`, `WeightedFinalBounds` and `DefaultWeightedFinalBounds` state its shape and range. |
| Evaluate.FullEvaluationShape | tamu25/evaluate.py:99-126 | Without real labels, there is no real block, `weighted_final` is the synthetic composite and the weights are exactly `{synthetic: 1.0}`. With real labels, both blocks are present, `weighted_final = w_real·real.composite + w_synth·synth.composite`, and the weights are both given weights. |
| Evaluate.WeightedFinalBounds | tamu25/evaluate.py:101-118 | For non-negative weights summing to 1 and a submission without duplicate pairs, `weighted_final` lies in [0, 1]. |
| Evaluate.DefaultWeightedFinalBounds | tamu25/evaluate.py:96-104 | With the default weights 0.7 and 0.3 and a submission without duplicate pairs, `weighted_final` lies in [0, 1]. |
| Evaluate.Blend | tamu25/evaluate.py:103-104 | `w_real * real["composite"] + w_synth * synth["composite"]`. `BlendBounds` states that it stays in [0, 1] for non-negative weights summing to 1. |
| Evaluate.BlendBounds | tamu25/evaluate.py:103-104 | A blend of two scores in [0, 1] with non-negative weights summing to 1 lies in [0, 1]. |
| Validate.ExtractProducts | tamu25/validate.py:26-43 | A list of strings gives the set of those strings. A list of objects gives the set of their non-empty `product_id` values. An empty list or a non-list gives the empty set. |
| Validate.ProductIds | tamu25/validate.py:26-43 | `_extract_products` as a value. `ExtractProducts` proves it for each catalog shape. |
| Validate.RequiredQueries | tamu25/validate.py:86-90 | The required query set as a value. `CollectRequired` proves the two loops build it. |
| Validate.CollectRequired | tamu25/validate.py:74-90 | The required set is the union of the real ids and the synthetic ids. The real ids count as empty when there is no real query list. |
| Validate.Parse | tamu25/validate.py:104-113 | A row is accepted exactly when it is an object with all of `query_id`, `rank` and `product_id` present. |
| Validate.Accepted | tamu25/validate.py:103-113 | The well-formed rows are at most the raw rows. |
| Validate.RowError | tamu25/validate.py:103-123 | One row adds at most one error in the scan. |
| Validate.ScanStep | tamu25/validate.py:103-125 | One more raw row extends the well-formed rows only if it parses, and adds only its own error. |
| Validate.PairStep | tamu25/validate.py:115-119 | One more row adds its pair to `seen_pairs`. It appends the pair to `duplicate_pairs` exactly when the pair was seen before. |
| Validate.PairSet | tamu25/validate.py:100-119 | `seen_pairs` after a run of rows. `PairStep` proves the loop keeps it exact, and `DuplicatesCount` relates it to the duplicate list. |
| Validate.ScanRows | tamu25/validate.py:99-125 | The row loop yields the row errors in row order, the grouping of the well-formed rows, and the duplicate list. |
| Validate.ListMissing | tamu25/validate.py:128 | The missing queries are exactly the required ids that are not group keys, each listed once. |
| Validate.CheckCoverage | tamu25/validate.py:127-131 | If some required query has no rows, there is one error counting those queries and one warning with a sample of at most 20 of them. Otherwise there is neither. |
| Validate.SampleOfList | tamu25/validate.py:131 | `missing_queries[:20]` holds `min(20, N)` distinct missing queries. |
| Validate.FirstGap | tamu25/validate.py:144-151 | There is no gap exactly when the ranks run start, start+1, and so on. Otherwise the gap is the first position whose rank differs from the expected one. |
| Validate.CheckContinuity | tamu25/validate.py:144-151 | The `expected` loop with its `break` stops at the first mismatch. |
| Validate.CheckSorted | tamu25/validate.py:141-151 | The depth check and then the continuity check on a sorted group. |
| Validate.CheckQuery | tamu25/validate.py:138-151 | Sorting one group by rank, its depth and its errors. |
| Validate.CheckQueries | tamu25/validate.py:133-153 | The per-query loop yields the errors of every group in order. `qcount` is the number of distinct query ids and the summed depth is the number of well-formed rows. |
| Validate.CheckedAll | tamu25/validate.py:134-139 | After the loop, the groups checked are all the queries, their count is the number of distinct ids, and their sizes sum to the number of rows. |
| Validate.AvgDepth | tamu25/validate.py:154 | `avg_depth` is non-negative, and it is 0 exactly when there are no well-formed rows. |
| Validate.ValidateSubmission | tamu25/validate.py:55-163 | A missing file or a non-array submission gives exactly one error, status failed, no warnings, 0 queries checked and no average depth. Otherwise the errors are the row, coverage, per-query and duplicate errors in that order. `queries_checked` is the number of distinct query ids and `avg_depth` their average size. The warning is as in `CheckCoverage`, and the status is passed exactly when there is no error. |
| Validate.RowErrorsEmptyIff | tamu25/validate.py:103-123 | The scan adds no error exactly when every row is well formed and names a catalog product. |
| Validate.RowErrors | tamu25/validate.py:103-123 | The errors the row scan adds, in row order. `ScanRows` proves the loop adds them, and `RowErrorsEmptyIff` and `RowErrorsCount` state when there are none and how many. |
| Validate.Unknown | tamu25/validate.py:121-123 | The rows with an unknown product are among the well-formed rows. |
| Validate.RowErrorsCount | tamu25/validate.py:103-123 | The scan adds one error per malformed row plus one per well-formed row with an unknown product, duplicates included. |
| Validate.UnknownProductIff | tamu25/validate.py:121-123 | An "unknown product_id" error names `(q, p)` exactly when `p` is not in the catalog and some well-formed row has the pair `(q, p)`. |
| Validate.Duplicates | tamu25/validate.py:115-119 | `duplicate_pairs` as a value. `ScanRows` proves the loop builds it. `DuplicateIff`, `DuplicatesCount` and `DuplicatesEmptyIff` state which pairs it lists. |
| Validate.DuplicateErrors | tamu25/validate.py:156-157 | The duplicate check adds an error exactly when there are duplicates. The error is a single one, and its sample holds the first `min(10, N)` pairs. |
| Validate.DuplicatesCount | tamu25/validate.py:115-119 | Every well-formed row is either a first occurrence of its pair or a duplicate. |
| Validate.DuplicateIff | tamu25/validate.py:115-119 | A pair is listed as a duplicate exactly when two well-formed rows carry it. |
| Validate.DuplicatesEmptyIff | tamu25/validate.py:115-119 | There is no duplicate error exactly when all pairs are distinct. |
| Validate.QueryErrors | tamu25/validate.py:141-151 | One query adds at most two errors. `QueryErrorsShape` states which. |
| Validate.PerQueryErrors | tamu25/validate.py:136-151 | The errors of the per-query checks, in group order. `CheckQueries` proves the loop adds them, and `PerQueryErrorsEmptyIff` states when there are none. |
| Validate.QueryErrorsShape | tamu25/validate.py:141-151 | A query gets at most two errors. "at least 30" appears exactly when it has fewer than 30 rows. A continuity error appears exactly when the sorted ranks are not 1..n. |
| Validate.PerQueryErrorsEmptyIff | tamu25/validate.py:136-151 | The per-query checks add nothing exactly when every query has at least 30 rows ranked 1..n. |
| Validate.CoverageErrors | tamu25/validate.py:127-130 | The coverage error as a value. `CheckCoverage` proves the check computes it, and `CoverageEmptyIff` states when it is absent. |
| Validate.CoverageEmptyIff | tamu25/validate.py:128-130 | No coverage error exactly when every required query has rows. |
| Validate.ErrorsOf | tamu25/validate.py:103-157 | All errors of a submission array: row errors, then coverage, per-query and duplicate errors, in that order. `ValidateSubmission` proves the report carries them, and `PassIff` states when the list is empty. |
| Validate.PassIff | tamu25/validate.py:159-163 | A submission array passes exactly when: every row is well formed with a catalog product; every required query has rows; every query has at least 30 rows ranked 1..n; and no pair repeats. |
| Validate.DepthAtLeast | tamu25/validate.py:139-142 | Queries of at least 30 rows each have at least 30 rows per query in total. |
| Validate.DeepQueriesDepth | tamu25/validate.py:153-154 | When every query has at least 30 rows, `avg_depth` is at least 30. |
| Validate.PassedDepth | tamu25/validate.py:153-163 | A passing submission with rows reports `avg_depth >= 30`. |

## Left out

- Reading files and parsing JSON (`_load_json`, the file-existence check): inputs are parsed values, and a missing file is the `FileMissing` case.
- Logging, the command-line wrapper and report writing in `tamu25/cli/main.py`, the leaderboard script `scripts/aggregate_leaderboard.py` and the version lookup in `tamu25/__init__.py` are not part of this model. They are I/O and glue.
- Floating point: scores are exact reals. `round(..., 4)` in `_avg` and in the blended score, and `round(..., 2)` in `avg_depth`, are not modelled.
- The concrete discount `math.log2(i + 1)` is abstract: any positive, non-decreasing function of the position. Every property above holds for all such discounts.
- Error and warning messages are tagged values carrying the numbers and ids their text shows. The text itself is not modelled.
- Validate.ListMissing: the order of `missing_queries` comes from iterating a Python set, which is unspecified. The method picks elements in any order, so only the contents, their distinctness and the count are specified, and the sample is any `min(20, N)` of them.
- The unused parameters `max_team_dirs` of `validate_submission` and `k_list` of `evaluate_submission` are not modelled.
- JSON values of unexpected types are not modelled:
  - a `rank` that is not an integer (a float or a string, which Python would compare or fail to sort);
  - a non-string `query_id` or `product_id`;
  - a catalog list mixing strings and objects, where the source decides by the first element and may fail;
  - a non-string truthy `product_id` in a catalog object.

  Row fields are `Option<string>` and `Option<int>`, where JSON `null` and a missing key are both `None`.
- The validator loads the catalog and the query lists before it checks that the submission is an array. A failure to load them is I/O and is left out.
- Query-list entries without a `query_id` key (a `KeyError` in the source) are not modelled: query lists are sequences of ids.
- Evaluator rows are typed: a submission row or label row missing a key raises `KeyError` in the source and is not modelled. Grades are natural numbers, so negative relevance grades are not modelled.
- Evaluate.QueryScoreBounds: requires a submission without duplicate `(query_id, product_id)` pairs, which the source does not check in the evaluator. A relevant product listed twice counts as two hits against one relevant label row, so recall and AP can then exceed 1 (`DuplicateProductScoresTwo` gives an instance where both are 2). The validator rejects such submissions.
- Evaluate.EvaluationBounds: requires no duplicate pairs, for the same reason as QueryScoreBounds.
- Evaluate.WeightedFinalBounds: requires no duplicate pairs, for the same reason as QueryScoreBounds.
- Evaluate.HitsAtMostRelevant: requires no duplicate pairs, for the same reason as QueryScoreBounds.
- The test at `tests/test_evaluate.py:71` expects `weighted_final` to equal the synthetic nDCG@10 when there are no real labels. The code sets it to the synthetic composite (`tamu25/evaluate.py:118`), and the model follows the code.
